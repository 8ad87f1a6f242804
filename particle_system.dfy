/** The background particle field: particle creation, the per-frame update
    (ageing, gravity and friction, fade-out, removal, edge bounce) and the
    spawning of new particles. Coordinates and velocities are exact reals,
    and every `Math.random()` result is passed in as a parameter. */
module ParticleSystem {
  import Seqs

  /** The five particle colours. */
  const Palette: seq<string> := ["#3b82f6", "#8b5cf6", "#ec4899", "#10b981", "#f59e0b"]

  /** Particles present when the field starts. */
  const InitialCount: nat := 30
  /** Below this population the frame may spawn a particle. */
  const SpawnFloor: nat := 50
  /** Chance that a mouse move spawns a particle at the pointer. */
  const MouseSpawnChance: real := 0.3
  /** Chance that a sparse frame spawns a particle. */
  const FrameSpawnChance: real := 0.02

  datatype Particle = Particle(
    x: real, y: real,
    vx: real, vy: real,
    size: real,
    opacity: real,
    color: string,
    life: nat,
    maxLife: real)

  /** A result of `Math.random()`. */
  predicate IsUnitDraw(r: real) {
    0.0 <= r < 1.0
  }

  /** The six `Math.random()` results `createParticle` consumes, in the order
      it draws them. */
  datatype Draws = Draws(vx: real, vy: real, size: real, opacity: real, color: real, maxLife: real)

  predicate ValidDraws(d: Draws) {
    IsUnitDraw(d.vx) && IsUnitDraw(d.vy) && IsUnitDraw(d.size) &&
    IsUnitDraw(d.opacity) && IsUnitDraw(d.color) && IsUnitDraw(d.maxLife)
  }

  /** The draws of a spawn at a random canvas position: the two position
      draws are taken before `createParticle` runs. */
  datatype SpawnDraws = SpawnDraws(px: real, py: real, particle: Draws)

  predicate ValidSpawnDraws(s: SpawnDraws) {
    IsUnitDraw(s.px) && IsUnitDraw(s.py) && ValidDraws(s.particle)
  }

  /** `createParticle(x, y)`: a fresh particle at (x, y) with life 0, a
      lifespan in [50, 150), a palette colour, a velocity component in [-1, 1)
      on each axis, a size in [1, 4) and a starting opacity in [0.2, 1). */
  function CreateParticle(x: real, y: real, d: Draws): (p: Particle)
    requires ValidDraws(d)
    ensures p.x == x && p.y == y && p.life == 0
    ensures 50.0 <= p.maxLife < 150.0
    ensures p.color in Palette
    ensures -1.0 <= p.vx < 1.0 && -1.0 <= p.vy < 1.0
    ensures 1.0 <= p.size < 4.0
    ensures 0.2 <= p.opacity < 1.0
  {
    var colorIndex := (d.color * |Palette| as real).Floor;
    Particle(
      x, y,
      (d.vx - 0.5) * 2.0, (d.vy - 0.5) * 2.0,
      d.size * 3.0 + 1.0,
      d.opacity * 0.8 + 0.2,
      Palette[colorIndex],
      0,
      d.maxLife * 100.0 + 50.0)
  }

  /** A particle at a random canvas position. */
  function SpawnParticle(width: real, height: real, s: SpawnDraws): (p: Particle)
    requires ValidSpawnDraws(s)
  {
    CreateParticle(s.px * width, s.py * height, s.particle)
  }

  /** What every particle in the field satisfies between frames. */
  predicate WellFormed(p: Particle) {
    && 50.0 <= p.maxLife < 150.0
    && p.life as real < p.maxLife
    && 0.0 <= p.opacity <= 1.0
    && p.color in Palette
  }

  lemma CreatedWellFormed(x: real, y: real, d: Draws)
    requires ValidDraws(d)
    ensures WellFormed(CreateParticle(x, y, d))
  {
  }

  function Max(a: real, b: real): real {
    if a >= b then a else b
  }

  /** The fade-out rule `max(0, 1 - life / maxLife)`: a value in [0, 1] that
      reaches 0 exactly when the age reaches the lifespan. */
  function Fade(life: nat, maxLife: real): (o: real)
    requires maxLife > 0.0
    ensures 0.0 <= o <= 1.0
    ensures o <= 0.0 <==> life as real >= maxLife
  {
    var ratio := life as real / maxLife;
    assert ratio >= 0.0;
    assert ratio >= 1.0 <==> life as real >= maxLife by {
      assert ratio * maxLife == life as real;
      if ratio >= 1.0 { assert ratio * maxLife >= 1.0 * maxLife; }
      else { assert ratio * maxLife < 1.0 * maxLife; }
    }
    Max(0.0, 1.0 - ratio)
  }

  /** The update of one particle in a frame, before the removal test: it
      moves by its old velocity, ages by one frame, gains 0.01 of downward
      speed, loses 1% of its speed to friction and fades. */
  function Advance(p: Particle): (q: Particle)
    requires p.maxLife > 0.0
    ensures q.x == p.x + p.vx && q.y == p.y + p.vy
    ensures q.life == p.life + 1
    ensures q.vx == 0.99 * p.vx && q.vy == 0.99 * (p.vy + 0.01)
    ensures q.opacity == Fade(q.life, p.maxLife)
    ensures q.size == p.size && q.color == p.color && q.maxLife == p.maxLife
  {
    var life := p.life + 1;
    p.(x := p.x + p.vx, y := p.y + p.vy, life := life,
       vx := p.vx * 0.99, vy := (p.vy + 0.01) * 0.99,
       opacity := Fade(life, p.maxLife))
  }

  /** The removal test of the frame. */
  predicate IsDead(q: Particle) {
    q.life as real >= q.maxLife || q.opacity <= 0.0
  }

  /** The edge bounce: a particle outside [0, width] has its horizontal speed
      reversed and scaled by 0.8; the same holds vertically for [0, height].
      Positions are left where they are. */
  function Bounce(q: Particle, width: real, height: real): (r: Particle)
    ensures q.x < 0.0 || q.x > width ==> r.vx == -0.8 * q.vx
    ensures 0.0 <= q.x <= width ==> r.vx == q.vx
    ensures q.y < 0.0 || q.y > height ==> r.vy == -0.8 * q.vy
    ensures 0.0 <= q.y <= height ==> r.vy == q.vy
    ensures r == q.(vx := r.vx, vy := r.vy)
  {
    var vx := if q.x < 0.0 || q.x > width then q.vx * -0.8 else q.vx;
    var vy := if q.y < 0.0 || q.y > height then q.vy * -0.8 else q.vy;
    q.(vx := vx, vy := vy)
  }

  /** A particle at (5, 300) moving at (-3, 0) on an 800 by 600 surface
      moves to x = 2, still inside the surface, so it does not bounce: it
      keeps moving left with the damped speed -2.97. A particle at (2, 300)
      with the same speed leaves the surface and bounces back. */
  lemma LeftEdgeExamples()
    ensures var p := Particle(5.0, 300.0, -3.0, 0.0, 2.0, 1.0, "#3b82f6", 0, 100.0);
            var q := Bounce(Advance(p), 800.0, 600.0);
            q.x == 2.0 && q.vx == -2.97
    ensures var p := Particle(2.0, 300.0, -3.0, 0.0, 2.0, 1.0, "#3b82f6", 0, 100.0);
            var q := Bounce(Advance(p), 800.0, 600.0);
            q.x == -1.0 && q.vx > 0.0
  {
  }

  /** A particle outlives the frame when its advanced state is not dead. */
  predicate Survives(p: Particle) {
    p.maxLife > 0.0 && !IsDead(Advance(p))
  }

  predicate AllPositiveLifespans(ps: seq<Particle>) {
    forall k :: 0 <= k < |ps| ==> ps[k].maxLife > 0.0
  }

  /** The particle list after the update-and-remove loop of one frame: no
      longer than before, and every particle in it still short of its
      lifespan and visible. */
  function FrameUpdate(ps: seq<Particle>, width: real, height: real): (r: seq<Particle>)
    requires AllPositiveLifespans(ps)
    ensures |r| <= |ps|
    ensures forall k :: 0 <= k < |r| ==> !IsDead(r[k])
  {
    if ps == [] then []
    else
      var q := Advance(ps[0]);
      (if IsDead(q) then [] else [Bounce(q, width, height)]) + FrameUpdate(ps[1..], width, height)
  }

  /** The frame keeps exactly the surviving particles, in their order, each
      advanced and bounced. */
  lemma {:induction false} FrameUpdateSurvivors(ps: seq<Particle>, width: real, height: real)
    requires AllPositiveLifespans(ps)
    ensures |FrameUpdate(ps, width, height)| == |Seqs.Filter(Survives, ps)|
    ensures forall k :: 0 <= k < |FrameUpdate(ps, width, height)| ==>
              FrameUpdate(ps, width, height)[k] == Bounce(Advance(Seqs.Filter(Survives, ps)[k]), width, height)
  {
    if ps != [] {
      FrameUpdateSurvivors(ps[1..], width, height);
      var rest := FrameUpdate(ps[1..], width, height);
      var kept := Seqs.Filter(Survives, ps[1..]);
      if Survives(ps[0]) {
        assert FrameUpdate(ps, width, height) == [Bounce(Advance(ps[0]), width, height)] + rest;
        assert Seqs.Filter(Survives, ps) == [ps[0]] + kept;
      } else {
        assert FrameUpdate(ps, width, height) == rest;
        assert Seqs.Filter(Survives, ps) == kept;
      }
    }
  }

  /** Hence a particle of the input is among the survivors iff it does not
      die this frame, and the survivors keep their relative order. */
  lemma SurvivorMembership(ps: seq<Particle>, p: Particle)
    ensures p in Seqs.Filter(Survives, ps) <==> p in ps && p.maxLife > 0.0 && !IsDead(Advance(p))
    ensures Seqs.IsSubsequence(Seqs.Filter(Survives, ps), ps)
  {
    Seqs.FilterMembership(Survives, ps, p);
    Seqs.FilterSubsequence(Survives, ps);
  }

  /** Every particle a frame leaves behind is well formed again: younger than
      its lifespan, with an opacity in (0, 1]. */
  lemma {:induction false} FrameUpdateWellFormed(ps: seq<Particle>, width: real, height: real)
    requires forall k :: 0 <= k < |ps| ==> WellFormed(ps[k])
    ensures AllPositiveLifespans(ps)
    ensures forall k :: 0 <= k < |FrameUpdate(ps, width, height)| ==>
              WellFormed(FrameUpdate(ps, width, height)[k]) &&
              FrameUpdate(ps, width, height)[k].opacity > 0.0
  {
    if ps != [] {
      FrameUpdateWellFormed(ps[1..], width, height);
    }
  }

  /** A frame removes nothing while every particle is at least two frames
      from its lifespan; in particular a freshly created field of particles
      with life 0 loses none in its first frame. */
  lemma {:induction false} YoungParticlesSurvive(ps: seq<Particle>, width: real, height: real)
    requires forall k :: 0 <= k < |ps| ==> ps[k].maxLife > 0.0 && (ps[k].life + 1) as real < ps[k].maxLife
    ensures |FrameUpdate(ps, width, height)| == |ps|
    ensures forall k :: 0 <= k < |ps| ==> FrameUpdate(ps, width, height)[k].life == ps[k].life + 1
  {
    if ps != [] {
      YoungParticlesSurvive(ps[1..], width, height);
      assert !IsDead(Advance(ps[0]));
      assert FrameUpdate(ps, width, height) ==
             [Bounce(Advance(ps[0]), width, height)] + FrameUpdate(ps[1..], width, height);
    }
  }

  /** One step of the frame for a list whose suffix from `i` is handled
      next: the particle at `i` contributes its advanced, bounced state unless
      it dies. */
  lemma FrameUpdateStep(ps: seq<Particle>, i: nat, width: real, height: real)
    requires i < |ps| && AllPositiveLifespans(ps)
    ensures ps[..i + 1] == ps[..i] + [ps[i]]
    ensures IsDead(Advance(ps[i])) ==>
              FrameUpdate(ps[i..], width, height) == FrameUpdate(ps[i + 1..], width, height)
    ensures !IsDead(Advance(ps[i])) ==>
              FrameUpdate(ps[i..], width, height) ==
              [Bounce(Advance(ps[i]), width, height)] + FrameUpdate(ps[i + 1..], width, height)
  {
    assert ps[i..][0] == ps[i];
    assert ps[i..][1..] == ps[i + 1..];
  }

  /** Splicing out, at index `i`, the unprocessed element of a loop state. */
  lemma SpliceSteps<T>(a: seq<T>, i: nat, rest: seq<T>)
    requires i < |a|
    ensures (a[..i + 1] + rest)[i] == a[i]
    ensures (a[..i + 1] + rest)[..i] + (a[..i + 1] + rest)[i + 1..] == a[..i] + rest
  {
    var ps := a[..i + 1] + rest;
    assert ps[..i] == a[..i];
    assert ps[i + 1..] == rest;
  }

  /** Replacing, at index `i`, the unprocessed element of a loop state. */
  lemma ReplaceStep<T>(a: seq<T>, i: nat, rest: seq<T>, q: T)
    requires i < |a|
    ensures (a[..i + 1] + rest)[i := q] == a[..i] + ([q] + rest)
  {
  }

  /** The body of the update loop for one particle, field by field as the
      component mutates it: it reports whether the particle is removed and,
      if not, its new state. */
  method UpdateParticle(particle: Particle, width: real, height: real) returns (removed: bool, q: Particle)
    requires particle.maxLife > 0.0
    ensures removed <==> IsDead(Advance(particle))
    ensures !removed ==> q == Bounce(Advance(particle), width, height)
  {
    var p := particle;
    // position and age
    p := p.(x := p.x + p.vx);
    p := p.(y := p.y + p.vy);
    p := p.(life := p.life + 1);
    // gravity and friction
    p := p.(vy := p.vy + 0.01);
    p := p.(vx := p.vx * 0.99);
    p := p.(vy := p.vy * 0.99);
    // fade out
    p := p.(opacity := Max(0.0, 1.0 - p.life as real / p.maxLife));
    assert p == Advance(particle);
    removed := p.life as real >= p.maxLife || p.opacity <= 0.0;
    if !removed {
      // bounce off the edges
      if p.x < 0.0 || p.x > width { p := p.(vx := p.vx * -0.8); }
      if p.y < 0.0 || p.y > height { p := p.(vy := p.vy * -0.8); }
    }
    q := p;
  }

  /** The canvas-backed particle field of the component. */
  class ParticleField {
    var particles: seq<Particle>
    var width: real
    var height: real
    var mouseX: real
    var mouseY: real
    var isActive: bool

    predicate Valid()
      reads this
    {
      forall k :: 0 <= k < |particles| ==> WellFormed(particles[k])
    }

    /** Set-up: 30 particles at random canvas positions. */
    constructor (w: real, h: real, draws: seq<SpawnDraws>)
      requires |draws| == InitialCount
      requires forall k :: 0 <= k < |draws| ==> ValidSpawnDraws(draws[k])
      ensures Valid()
      ensures width == w && height == h && !isActive && mouseX == 0.0 && mouseY == 0.0
      ensures |particles| == InitialCount
      ensures forall k :: 0 <= k < InitialCount ==> particles[k] == SpawnParticle(w, h, draws[k])
    {
      var ps: seq<Particle> := [];
      for i := 0 to InitialCount
        invariant |ps| == i
        invariant forall k :: 0 <= k < i ==> ps[k] == SpawnParticle(w, h, draws[k])
        invariant forall k :: 0 <= k < i ==> WellFormed(ps[k])
      {
        CreatedWellFormed(draws[i].px * w, draws[i].py * h, draws[i].particle);
        ps := ps + [SpawnParticle(w, h, draws[i])];
      }
      particles := ps;
      width, height := w, h;
      mouseX, mouseY, isActive := 0.0, 0.0, false;
    }

    /** `handleMouseMove`: record the pointer, mark it active, and spawn one
        particle at the pointer when the draw falls under 0.3. */
    method MouseMove(x: real, y: real, coin: real, d: Draws)
      requires Valid() && IsUnitDraw(coin) && ValidDraws(d)
      modifies this
      ensures Valid()
      ensures mouseX == x && mouseY == y && isActive
      ensures width == old(width) && height == old(height)
      ensures particles == old(particles) + (if coin < MouseSpawnChance then [CreateParticle(x, y, d)] else [])
    {
      mouseX, mouseY := x, y;
      isActive := true;
      if coin < MouseSpawnChance {
        CreatedWellFormed(x, y, d);
        particles := particles + [CreateParticle(x, y, d)];
      }
    }

    /** `handleMouseLeave`. */
    method MouseLeave()
      modifies this
      ensures !isActive
      ensures particles == old(particles) && mouseX == old(mouseX) && mouseY == old(mouseY)
      ensures width == old(width) && height == old(height)
    {
      isActive := false;
    }

    /** The reverse-index loop of `animate`: update every particle, splice
        out the dead ones and bounce the others. */
    method UpdateParticles()
      requires Valid()
      modifies this`particles
      ensures Valid()
      ensures AllPositiveLifespans(old(particles))
      ensures particles == FrameUpdate(old(particles), width, height)
    {
      var ps, w, h := particles, width, height;
      FrameUpdateWellFormed(ps, w, h);
      ghost var start := ps;
      var i := |ps| - 1;
      while i >= 0
        invariant -1 <= i < |start|
        invariant AllPositiveLifespans(start)
        invariant ps == start[..i + 1] + FrameUpdate(start[i + 1..], w, h)
      {
        ghost var done := FrameUpdate(start[i + 1..], w, h);
        SpliceSteps(start, i, done);
        var removed, q := UpdateParticle(ps[i], w, h);
        FrameUpdateStep(start, i, w, h);
        if removed {
          ps := ps[..i] + ps[i + 1..];
        } else {
          ps := ps[i := q];
          ReplaceStep(start, i, done, q);
        }
        i := i - 1;
      }
      assert start[..0] == [] && start[0..] == start;
      particles := ps;
    }

    /** One frame of `animate` without the drawing: the update loop, then at
        most one spawn when fewer than 50 particles are left and the draw
        falls under 0.02. */
    method Animate(coin: real, spawn: SpawnDraws)
      requires Valid() && IsUnitDraw(coin) && ValidSpawnDraws(spawn)
      modifies this
      ensures Valid()
      ensures width == old(width) && height == old(height)
      ensures mouseX == old(mouseX) && mouseY == old(mouseY) && isActive == old(isActive)
      ensures AllPositiveLifespans(old(particles))
      ensures var survivors := FrameUpdate(old(particles), width, height);
              particles == survivors +
                (if |survivors| < SpawnFloor && coin < FrameSpawnChance
                 then [SpawnParticle(width, height, spawn)] else [])
    {
      UpdateParticles();
      if |particles| < SpawnFloor && coin < FrameSpawnChance {
        CreatedWellFormed(spawn.px * width, spawn.py * height, spawn.particle);
        particles := particles + [SpawnParticle(width, height, spawn)];
      }
    }
  }
}
