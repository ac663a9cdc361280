/** The cursor trail: every other frame a short-lived particle is emitted at the pointer;
    every frame each particle drifts, fades and shrinks, and the faded ones are removed. */
module Trail {
  import opened Basics
  import opened Canvas

  /** Life lost per update (`decay`). */
  const Decay: real := 0.02

  /** Size lost per update while the particle is larger than 0.2. */
  const Shrink: real := 0.1

  /** The frames a particle lives: 1 / Decay. */
  const Lifetime: nat := 50

  /** The largest number of particles alive after a frame. */
  const MaxPopulation: nat := 25

  datatype TrailState = TrailState(x: real, y: real, vx: real, vy: real, size: real, life: real)

  /** A new particle at (x, y); r1, r2, r3 are the three draws of Math.random, in the
      order the constructor makes them (size, then vx, then vy). */
  function Spawn(x: real, y: real, r1: real, r2: real, r3: real): (t: TrailState)
    requires 0.0 <= r1 < 1.0 && 0.0 <= r2 < 1.0 && 0.0 <= r3 < 1.0
    ensures t.x == x && t.y == y && t.life == 1.0
    ensures 1.0 <= t.size < 6.0
    ensures -1.0 <= t.vx < 1.0 && -1.0 <= t.vy < 1.0
  {
    TrailState(x, y, r2 * 2.0 - 1.0, r3 * 2.0 - 1.0, r1 * 5.0 + 1.0, 1.0)
  }

  /** One update: drift by the velocity, fade, and shrink while larger than 0.2. */
  function Age(t: TrailState): TrailState
  {
    TrailState(t.x + t.vx, t.y + t.vy, t.vx, t.vy,
               if t.size > 0.2 then t.size - Shrink else t.size,
               t.life - Decay)
  }

  /** One update moves the particle by exactly its velocity, keeps the velocity, takes
      exactly 0.02 of life, takes 0.1 of size iff the size was above 0.2, never grows it,
      and keeps a size above 0.1. */
  lemma AgeFacts(t: TrailState)
    ensures var a := Age(t);
      && a.x - t.x == t.vx && a.y - t.y == t.vy
      && a.vx == t.vx && a.vy == t.vy
      && a.life == t.life - 0.02
      && (a.size == t.size - 0.1 <==> t.size > 0.2)
      && (a.size == t.size <==> t.size <= 0.2)
      && a.size <= t.size
      && (t.size > 0.1 ==> a.size > 0.1)
  {
  }

  /** k updates in a row. */
  function Ages(t: TrailState, k: nat): TrailState
  {
    if k == 0 then t else Age(Ages(t, k - 1))
  }

  /** After k updates the particle has moved by k times its velocity, lost 0.02 of life
      per update, and its size stayed above 0.1 if it started there. */
  lemma {:induction false} AgesFacts(t: TrailState, k: nat)
    ensures var a := Ages(t, k);
      && a.x == t.x + (k as real) * t.vx && a.y == t.y + (k as real) * t.vy
      && a.vx == t.vx && a.vy == t.vy
      && a.life == t.life - Decay * (k as real)
      && a.size <= t.size
      && (t.size > 0.1 ==> a.size > 0.1)
  {
    if k > 0 {
      AgesFacts(t, k - 1);
      var p := Ages(t, k - 1);
      assert p.x + p.vx == t.x + (k as real) * t.vx;
      assert p.y + p.vy == t.y + (k as real) * t.vy;
    }
  }

  /** A fresh particle is alive after exactly the first 49 updates: after k updates its
      life is 1 - 0.02 * k, positive iff k < 50. */
  lemma LifeSpan(t: TrailState, k: nat)
    requires t.life == 1.0
    ensures Ages(t, k).life == 1.0 - Decay * (k as real)
    ensures Ages(t, k).life > 0.0 <==> k < Lifetime
  {
    AgesFacts(t, k);
  }

  /** The updated particles still alive, in list order (the result of the backwards
      update-and-splice loop). */
  function Survivors(s: seq<TrailState>): (r: seq<TrailState>)
    ensures |r| <= |s|
    ensures forall k :: 0 <= k < |r| ==> r[k].life > 0.0
  {
    if s == [] then []
    else (if Age(s[0]).life > 0.0 then [Age(s[0])] else []) + Survivors(s[1..])
  }

  /** A state survives iff it is the update of some listed particle and is still alive. */
  lemma {:induction false} SurvivorsMembers(s: seq<TrailState>, t: TrailState)
    ensures t in Survivors(s) <==> t.life > 0.0 && exists k :: 0 <= k < |s| && t == Age(s[k])
  {
    if s != [] {
      SurvivorsMembers(s[1..], t);
      if exists k :: 0 <= k < |s| && t == Age(s[k]) {
        var k :| 0 <= k < |s| && t == Age(s[k]);
        if k > 0 {
          assert t == Age(s[1..][k - 1]);
        }
      }
      if exists k :: 0 <= k < |s[1..]| && t == Age(s[1..][k]) {
        var k :| 0 <= k < |s[1..]| && t == Age(s[1..][k]);
        assert t == Age(s[k + 1]);
      }
    }
  }

  /** Survivors distributes over concatenation, so relative order is kept: the survivors
      of an earlier part of the list all come before those of a later part. */
  lemma {:induction false} SurvivorsAppend(a: seq<TrailState>, b: seq<TrailState>)
    ensures Survivors(a + b) == Survivors(a) + Survivors(b)
  {
    if a == [] {
      assert a + b == b;
    } else {
      assert (a + b)[0] == a[0] && (a + b)[1..] == a[1..] + b;
      SurvivorsAppend(a[1..], b);
    }
  }

  /** A single particle is kept, updated, iff it is still alive after the update. */
  lemma SurvivorsSingle(t: TrailState)
    ensures Survivors([t]) == if Age(t).life > 0.0 then [Age(t)] else []
  {
    assert [t][1..] == [];
  }

  /** The new particles of a frame: one at the pointer on even frames, none on odd ones. */
  function Emitted(frame: nat, x: real, y: real, r1: real, r2: real, r3: real): (e: seq<TrailState>)
    requires 0.0 <= r1 < 1.0 && 0.0 <= r2 < 1.0 && 0.0 <= r3 < 1.0
    ensures |e| == (if frame % 2 == 0 then 1 else 0)
    ensures forall t :: t in e ==> t.x == x && t.y == y && t.life == 1.0
  {
    if frame % 2 == 0 then [Spawn(x, y, r1, r2, r3)] else []
  }

  /** Odd frames emit nothing; even frames emit exactly a spawn at the pointer. */
  lemma EmittedParity(frame: nat, x: real, y: real, r1: real, r2: real, r3: real)
    requires 0.0 <= r1 < 1.0 && 0.0 <= r2 < 1.0 && 0.0 <= r3 < 1.0
    ensures frame % 2 == 1 <==> Emitted(frame, x, y, r1, r2, r3) == []
    ensures frame % 2 == 0 <==> Emitted(frame, x, y, r1, r2, r3) == [Spawn(x, y, r1, r2, r3)]
  {
  }

  /** An empty trail stays empty through an odd frame. */
  lemma OddFrameFromEmpty(before: seq<TrailState>, after: seq<TrailState>, frame: nat, x: real, y: real,
                          r1: real, r2: real, r3: real)
    requires 0.0 <= r1 < 1.0 && 0.0 <= r2 < 1.0 && 0.0 <= r3 < 1.0
    requires before == [] && frame % 2 == 1
    requires after == Survivors(before + Emitted(frame, x, y, r1, r2, r3))
    ensures after == []
  {
    assert before + Emitted(frame, x, y, r1, r2, r3) == [];
  }

  /** The particles' lives match the frames they were born at: particle k, born at the
      even frame b[k], has life 1 - 0.02 * (now - b[k]); births are strictly increasing
      and none is later than `now`. */
  ghost predicate Aligned(s: seq<TrailState>, b: seq<int>, now: int)
  {
    && |s| == |b|
    && (forall k :: 0 <= k < |s| ==>
          s[k].life == 1.0 - Decay * ((now - b[k]) as real) && b[k] <= now && b[k] % 2 == 0)
    && (forall k1, k2 :: 0 <= k1 < k2 < |b| ==> b[k1] < b[k2])
  }

  /** Every particle of the list has life left. */
  ghost predicate Live(s: seq<TrailState>)
  {
    forall k :: 0 <= k < |s| ==> s[k].life > 0.0
  }

  /** The births of the particles that survive, in the same order as Survivors. */
  function KeptBirths(s: seq<TrailState>, b: seq<int>): seq<int>
    requires |s| == |b|
  {
    if s == [] then []
    else (if Age(s[0]).life > 0.0 then [b[0]] else []) + KeptBirths(s[1..], b[1..])
  }

  /** An emission at an even frame later than every birth keeps the list aligned. */
  lemma EmitAligned(s: seq<TrailState>, b: seq<int>, now: int, t: TrailState)
    requires Aligned(s, b, now) && forall k :: 0 <= k < |b| ==> b[k] < now
    requires now % 2 == 0 && t.life == 1.0
    ensures Aligned(s + [t], b + [now], now)
  {
  }

  /** Updating and filtering an aligned list leaves it aligned one frame later. */
  lemma {:induction false} SurvivorsAligned(s: seq<TrailState>, b: seq<int>, now: int)
    requires Aligned(s, b, now)
    ensures Aligned(Survivors(s), KeptBirths(s, b), now + 1)
  {
    if s != [] {
      AlignedTail(s, b, now);
      SurvivorsAligned(s[1..], b[1..], now);
      KeptBirthsIn(s[1..], b[1..]);
      var rest, restB := Survivors(s[1..]), KeptBirths(s[1..], b[1..]);
      if Age(s[0]).life > 0.0 {
        AlignedCons(Age(s[0]), b[0], rest, restB, now + 1);
      }
    }
  }

  lemma AlignedTail(s: seq<TrailState>, b: seq<int>, now: int)
    requires Aligned(s, b, now) && s != []
    ensures Aligned(s[1..], b[1..], now)
    ensures forall x :: x in b[1..] ==> b[0] < x
  {
  }

  lemma AlignedCons(t: TrailState, bt: int, s: seq<TrailState>, b: seq<int>, now: int)
    requires Aligned(s, b, now)
    requires t.life == 1.0 - Decay * ((now - bt) as real) && bt <= now && bt % 2 == 0
    requires forall x :: x in b ==> bt < x
    ensures Aligned([t] + s, [bt] + b, now)
  {
    var s', b' := [t] + s, [bt] + b;
    forall k1, k2 | 0 <= k1 < k2 < |b'|
      ensures b'[k1] < b'[k2]
    {
      assert b'[k2] == b[k2 - 1] && b[k2 - 1] in b;
      if k1 > 0 {
        assert b'[k1] == b[k1 - 1];
      }
    }
  }

  /** Every kept birth is one of the old births. */
  lemma {:induction false} KeptBirthsIn(s: seq<TrailState>, b: seq<int>)
    requires |s| == |b|
    ensures forall x :: x in KeptBirths(s, b) ==> x in b
  {
    if s != [] {
      KeptBirthsIn(s[1..], b[1..]);
    }
  }

  /** After the sweep of frame `now` the kept particles are aligned one frame later,
      alive, born no later than `now`, and at most 25. */
  lemma FrameBookkeeping(s: seq<TrailState>, b: seq<int>, now: int)
    requires Aligned(s, b, now)
    requires forall k :: 0 <= k < |b| ==> b[k] <= now
    ensures Aligned(Survivors(s), KeptBirths(s, b), now + 1)
    ensures forall k :: 0 <= k < |KeptBirths(s, b)| ==> KeptBirths(s, b)[k] <= now
    ensures Live(Survivors(s)) && |Survivors(s)| <= MaxPopulation
  {
    SurvivorsAligned(s, b, now);
    KeptBirthsIn(s, b);
    PopulationBound(Survivors(s), KeptBirths(s, b), now + 1);
  }

  /** Strictly increasing even births are at least 2 apart. */
  lemma {:induction false} BirthsSpread(b: seq<int>, k: nat)
    requires k < |b|
    requires forall m :: 0 <= m < |b| ==> b[m] % 2 == 0
    requires forall k1, k2 :: 0 <= k1 < k2 < |b| ==> b[k1] < b[k2]
    ensures b[k] >= b[0] + 2 * k
  {
    if k > 0 {
      BirthsSpread(b, k - 1);
      EvenGap(b[k - 1], b[k]);
    }
  }

  lemma EvenGap(a: int, b: int)
    requires a < b && a % 2 == 0 && b % 2 == 0
    ensures a + 2 <= b
  {
    var qa, qb := a / 2, b / 2;
    assert a == 2 * qa && b == 2 * qb;
  }

  /** Particles that are alive and aligned were born within the last 50 frames, at even
      frames, so there are at most 25 of them. */
  lemma PopulationBound(s: seq<TrailState>, b: seq<int>, now: int)
    requires Aligned(s, b, now)
    requires Live(s)
    ensures |s| <= MaxPopulation
  {
    if |s| > 0 {
      var last := |s| - 1;
      BirthsSpread(b, last);
      assert s[0].life > 0.0;
      assert now - b[0] < 50;
      assert b[last] <= now;
    }
  }

  /** A trail particle as the source keeps it; its velocity is fixed at birth. */
  class TrailParticle {
    var x: real
    var y: real
    const vx: real
    const vy: real
    var size: real
    var life: real

    ghost function State(): TrailState
      reads this
    {
      TrailState(x, y, vx, vy, size, life)
    }

    constructor (x0: real, y0: real, r1: real, r2: real, r3: real)
      requires 0.0 <= r1 < 1.0 && 0.0 <= r2 < 1.0 && 0.0 <= r3 < 1.0
      ensures State() == Spawn(x0, y0, r1, r2, r3)
    {
      x, y := x0, y0;
      size := r1 * 5.0 + 1.0;
      vx := r2 * 2.0 - 1.0;
      vy := r3 * 2.0 - 1.0;
      life := 1.0;
    }

    method Update()
      modifies this
      ensures State() == Age(old(State()))
    {
      x := x + vx;
      y := y + vy;
      life := life - Decay;
      if size > 0.2 {
        size := size - Shrink;
      }
    }
  }

  /** The snapshots of a list of trail particles, in list order. */
  ghost function Views(ps: seq<TrailParticle>): (s: seq<TrailState>)
    reads ps
    ensures |s| == |ps|
  {
    seq(|ps|, k requires 0 <= k < |ps| reads ps => ps[k].State())
  }

  class ParticleTrailSystem {
    const mouse: Pointer
    var particles: seq<TrailParticle>
    var frameCount: nat
    /** The frame each listed particle was emitted at. */
    ghost var births: seq<int>

    /** Each particle is listed once, is alive, and has the life its birth frame gives it. */
    ghost predicate Valid()
      reads this, particles
    {
      && Distinct(particles)
      && Aligned(Views(particles), births, frameCount + 1)
      && (forall k :: 0 <= k < |births| ==> births[k] <= frameCount)
      && Live(Views(particles))
    }

    constructor (mouse: Pointer)
      ensures Valid() && this.mouse == mouse
      ensures particles == [] && frameCount == 0
    {
      this.mouse := mouse;
      particles := [];
      frameCount := 0;
      births := [];
    }

    /** One frame: count it, emit at the pointer on even frames, then update every
        particle from the last to the first, removing each one whose life has run out. */
    method Render(r1: real, r2: real, r3: real)
      requires Valid()
      requires 0.0 <= r1 < 1.0 && 0.0 <= r2 < 1.0 && 0.0 <= r3 < 1.0
      modifies this, particles
      ensures Valid()
      ensures frameCount == old(frameCount) + 1
      ensures Views(particles) ==
        Survivors(old(Views(particles)) + Emitted(frameCount, mouse.x, mouse.y, r1, r2, r3))
      ensures |particles| <= MaxPopulation
      ensures forall q :: q in particles ==> q in old(particles) || fresh(q)
    {
      ghost var spawned := Emitted(frameCount + 1, mouse.x, mouse.y, r1, r2, r3);
      Emit(r1, r2, r3);
      ghost var before := Views(particles);
      ghost var bornAt := births;
      assert before == old(Views(particles)) + spawned;
      ghost var mx, my := mouse.x, mouse.y;
      particles := Sweep(particles);
      assert mouse.x == mx && mouse.y == my;
      assert Views(particles) == Survivors(before);
      assert spawned == Emitted(frameCount, mouse.x, mouse.y, r1, r2, r3);
      births := KeptBirths(before, bornAt);
      FrameBookkeeping(before, bornAt, frameCount);
    }

    /** The first half of a frame: count it, and on even frames append a new particle at
        the pointer, born at this frame. */
    method Emit(r1: real, r2: real, r3: real)
      requires Distinct(particles) && Aligned(Views(particles), births, frameCount + 1)
      requires forall k :: 0 <= k < |births| ==> births[k] <= frameCount
      requires 0.0 <= r1 < 1.0 && 0.0 <= r2 < 1.0 && 0.0 <= r3 < 1.0
      modifies this
      ensures frameCount == old(frameCount) + 1
      ensures Views(particles) == old(Views(particles)) + Emitted(frameCount, mouse.x, mouse.y, r1, r2, r3)
      ensures Distinct(particles) && Aligned(Views(particles), births, frameCount)
      ensures forall k :: 0 <= k < |births| ==> births[k] <= frameCount
      ensures old(particles) <= particles
      ensures forall k :: |old(particles)| <= k < |particles| ==> fresh(particles[k])
    {
      frameCount := frameCount + 1;
      if frameCount % 2 == 0 {
        Push(r1, r2, r3);
      }
    }

    /** Appends a new particle at the pointer, born at the current frame. */
    method Push(r1: real, r2: real, r3: real)
      requires Distinct(particles) && Aligned(Views(particles), births, frameCount)
      requires forall k :: 0 <= k < |births| ==> births[k] < frameCount
      requires frameCount % 2 == 0
      requires 0.0 <= r1 < 1.0 && 0.0 <= r2 < 1.0 && 0.0 <= r3 < 1.0
      modifies this
      ensures frameCount == old(frameCount)
      ensures Views(particles) == old(Views(particles)) + [Spawn(mouse.x, mouse.y, r1, r2, r3)]
      ensures Distinct(particles) && Aligned(Views(particles), births, frameCount)
      ensures forall k :: 0 <= k < |births| ==> births[k] <= frameCount
      ensures old(particles) <= particles
      ensures forall k :: |old(particles)| <= k < |particles| ==> fresh(particles[k])
    {
      var p := new TrailParticle(mouse.x, mouse.y, r1, r2, r3);
      ghost var pre := Views(particles);
      ViewsAppend(particles, p);
      DistinctAppend(particles, p);
      EmitAligned(pre, births, frameCount, p.State());
      particles := particles + [p];
      births := births + [frameCount];
    }

    /** The backwards loop: update each particle, last to first, and splice out each one
        whose life has run out. */
    method Sweep(list: seq<TrailParticle>) returns (kept: seq<TrailParticle>)
      requires Distinct(list)
      modifies list
      ensures Distinct(kept)
      ensures Views(kept) == Survivors(old(Views(list)))
      ensures forall q :: q in kept ==> q in list
    {
      ghost var before := Views(list);
      kept := list;
      var i := |kept| - 1;
      SweptStart(list, before);
      while i >= 0
        invariant Swept(kept, list, before, i)
      {
        kept := Visit(kept, i, list, before);
        i := i - 1;
      }
      SweptDone(kept, list, before);
    }

    /** One turn of the backwards loop, at index i. */
    method Visit(ps: seq<TrailParticle>, i: nat, ghost all: seq<TrailParticle>,
                 ghost before: seq<TrailState>) returns (next: seq<TrailParticle>)
      requires Swept(ps, all, before, i)
      modifies all[i]
      ensures Swept(next, all, before, i - 1)
    {
      var p := ps[i];
      ghost var rest := ps[i + 1..];
      assert p == all[i] && p !in rest;
      assert forall k :: 0 <= k < i ==> all[k] == ps[k] != p;
      p.Update();
      if p.life <= 0.0 {
        next := ps[..i] + ps[i + 1..];
        SweptRemove(ps, all, before, i);
      } else {
        next := ps;
        SweptKeep(ps, all, before, i);
      }
    }
  }

  /** Splicing out a particle whose life ran out moves the loop one index down. */
  lemma SweptRemove(ps: seq<TrailParticle>, all: seq<TrailParticle>, before: seq<TrailState>, i: nat)
    requires i < |all| && |before| == |all| && i + 1 <= |ps|
    requires ps[..i + 1] == all[..i + 1] && Distinct(ps)
    requires forall q :: q in ps ==> q in all
    requires forall k :: 0 <= k < i ==> all[k].State() == before[k]
    requires Views(ps[i + 1..]) == Survivors(before[i + 1..])
    requires Age(before[i]).life <= 0.0
    ensures Swept(ps[..i] + ps[i + 1..], all, before, i - 1)
  {
    var next := ps[..i] + ps[i + 1..];
    DistinctRemove(ps, i);
    SurvivorsStep(before, i);
    assert next[i..] == ps[i + 1..];
    assert Survivors(before[i..]) == [] + Survivors(before[i + 1..]) == Survivors(before[i + 1..]);
    assert Views(next[i..]) == Survivors(before[i..]);
    assert next[..i] == ps[..i] == ps[..i + 1][..i] == all[..i + 1][..i] == all[..i];
    forall q | q in next
      ensures q in ps
    {
      var k :| 0 <= k < |next| && next[k] == q;
      assert q == ps[if k < i then k else k + 1];
    }
  }

  /** Keeping a particle still alive after its update moves the loop one index down. */
  lemma SweptKeep(ps: seq<TrailParticle>, all: seq<TrailParticle>, before: seq<TrailState>, i: nat)
    requires i < |all| && |before| == |all| && i + 1 <= |ps|
    requires ps[..i + 1] == all[..i + 1] && Distinct(ps)
    requires forall q :: q in ps ==> q in all
    requires forall k :: 0 <= k < i ==> all[k].State() == before[k]
    requires Views(ps[i + 1..]) == Survivors(before[i + 1..])
    requires ps[i].State() == Age(before[i]) && Age(before[i]).life > 0.0
    ensures Swept(ps, all, before, i - 1)
  {
    SurvivorsStep(before, i);
    assert ps[i..] == [ps[i]] + ps[i + 1..];
    ViewsCons(ps[i], ps[i + 1..]);
    assert ps[..i] == all[..i];
  }

  /** The state of the backwards loop before visiting index i: the particles up to i are
      still the original ones, untouched; past i the list holds exactly the survivors of
      the original particles past i, each listed once. */
  ghost predicate Swept(ps: seq<TrailParticle>, all: seq<TrailParticle>, before: seq<TrailState>, i: int)
    reads ps, all
  {
    && -1 <= i < |all| && |before| == |all| && i + 1 <= |ps|
    && ps[..i + 1] == all[..i + 1]
    && Distinct(ps)
    && (forall q :: q in ps ==> q in all)
    && (forall k :: 0 <= k <= i ==> all[k].State() == before[k])
    && Views(ps[i + 1..]) == Survivors(before[i + 1..])
  }

  /** Before the loop nothing has been visited. */
  lemma SweptStart(all: seq<TrailParticle>, before: seq<TrailState>)
    requires Distinct(all) && before == Views(all)
    ensures Swept(all, all, before, |all| - 1)
  {
    assert all[|all|..] == [] && before[|before|..] == [];
    assert all[..|all|] == all;
  }

  /** After the loop every particle has been visited. */
  lemma SweptDone(ps: seq<TrailParticle>, all: seq<TrailParticle>, before: seq<TrailState>)
    requires Swept(ps, all, before, -1)
    ensures Distinct(ps) && Views(ps) == Survivors(before)
    ensures forall q :: q in ps ==> q in all
  {
    assert ps[0..] == ps && before[0..] == before && all[0..] == all;
  }

  lemma ViewsCons(p: TrailParticle, ps: seq<TrailParticle>)
    ensures Views([p] + ps) == [p.State()] + Views(ps)
  {
  }

  /** The loop's remaining work, one particle peeled off the front. */
  lemma SurvivorsStep(s: seq<TrailState>, i: nat)
    requires i < |s|
    ensures Survivors(s[i..]) ==
      (if Age(s[i]).life > 0.0 then [Age(s[i])] else []) + Survivors(s[i + 1..])
  {
    assert s[i..][0] == s[i] && s[i..][1..] == s[i + 1..];
  }

  lemma DistinctRemove<T>(s: seq<T>, i: nat)
    requires Distinct(s) && i < |s|
    ensures Distinct(s[..i] + s[i + 1..])
  {
    var r := s[..i] + s[i + 1..];
    forall a, b | 0 <= a < b < |r|
      ensures r[a] != r[b]
    {
      var a', b' := if a < i then a else a + 1, if b < i then b else b + 1;
      assert r[a] == s[a'] && r[b] == s[b'];
    }
  }

  lemma ViewsAppend(ps: seq<TrailParticle>, p: TrailParticle)
    ensures Views(ps + [p]) == Views(ps) + [p.State()]
  {
  }
}
