/**
 * A particle of the flock: its kinematic update (speed capping, acceleration
 * accumulation, integration, damping, clamping, toroidal wrap and colour
 * guidance over a reference image), its life timer and alpha fade, and its
 * speed limit.
 */
module Particles {
  import opened Vectors
  import opened Options

  /** An unsigned char. */
  type Byte = x: int | 0 <= x < 256

  /** An 8-bit colour (the alpha channel plays no part in guidance). */
  datatype Rgb = Rgb(r: Byte, g: Byte, b: Byte)

  /**
   * The reference image the particles are guided by: its size in pixels
   * and its colour lookup.
   */
  datatype Surface = Surface(width: int, height: int, colorAt: (int, int) -> Rgb) {
    predicate Valid() { width > 0 && height > 0 }
  }

  /** The static tuning parameters shared by every particle. */
  datatype Tuning = Tuning(speedRatio: real, dampness: real, colorRedirection: real)

  /** The defaults of s_particleSpeedRatio, s_dampness and s_colorRedirection. */
  const DefaultTuning := Tuning(1.0, 0.9, 1.0)

  /** The state update() rewrites. */
  datatype Kinematics = Kinematics(position: Vec, direction: Vec, velocity: Vec, acceleration: Vec)

  /** The state updateTimer() rewrites. */
  datatype Lifecycle = Lifecycle(lifeTime: real, lifeTimeLeft: real, alpha: Byte)

  /** Which way the colour guidance turns the velocity. */
  datatype Turn = Keep | TowardPlus45 | TowardMinus45

  function Abs(r: real): real { if r < 0.0 then -r else r }

  /**
   * One coordinate through the WRAP macro: a negative coordinate gets one
   * field size added, one at or past the size is reduced with fmod.
   */
  function WrapCoord(c: real, w: real): (r: real)
    requires w > 0.0
    ensures r < w
    ensures 0.0 <= r <==> -w <= c
    ensures 0.0 <= c < w ==> r == c
  {
    if c < 0.0 then c + w
    else if c >= w then (FmodRange(c, w); Fmod(c, w))
    else c
  }

  /** The WRAP macro applied to a point, with the surface's size. */
  function Wrapped(p: Vec, s: Surface): (q: Vec)
    requires s.Valid()
    ensures q.x < s.width as real && q.y < s.height as real
  {
    Vec(WrapCoord(p.x, s.width as real), WrapCoord(p.y, s.height as real))
  }

  /** A float coordinate truncated to int, below an integer bound it was below. */
  lemma TruncBelow(r: real, n: int)
    requires 0 < n && r < n as real
    ensures Trunc(r) < n
  {
    if r >= 0.0 {
      assert r.Floor as real <= r;
    }
  }

  /**
   * The pixel a probe point samples: its wrapped coordinates truncated to
   * int and raised to 0. It is always a pixel of the image.
   */
  function ProbePixel(q: Vec, s: Surface): (px: (int, int))
    requires s.Valid()
    ensures 0 <= px.0 < s.width && 0 <= px.1 < s.height
  {
    var w := Wrapped(q, s);
    TruncBelow(w.x, s.width);
    TruncBelow(w.y, s.height);
    (Max(Trunc(w.x), 0), Max(Trunc(w.y), 0))
  }

  /** ofColor subtraction: each channel saturates at 0. */
  function Diff(a: Rgb, b: Rgb): (d: Rgb)
    ensures d.r <= a.r && d.g <= a.g && d.b <= a.b
    ensures (a.r >= b.r ==> d.r == a.r - b.r) && (a.g >= b.g ==> d.g == a.g - b.g) && (a.b >= b.b ==> d.b == a.b - b.b)
    ensures (a.r < b.r ==> d.r == 0) && (a.g < b.g ==> d.g == 0) && (a.b < b.b ==> d.b == 0)
  {
    Rgb(if a.r > b.r then a.r - b.r else 0,
        if a.g > b.g then a.g - b.g else 0,
        if a.b > b.b then a.b - b.b else 0)
  }

  /** How far a probe's colour falls below the current colour, weighted 2 per channel. */
  function ProbeLoss(s: Surface, current: Rgb, q: Vec): (l: int)
    requires s.Valid()
    ensures 0 <= l <= 2 * (current.r + current.g + current.b)
  {
    var px := ProbePixel(q, s);
    var c := Diff(current, s.colorAt(px.0, px.1));
    2 * c.r + 2 * c.g + 2 * c.b
  }

  /**
   * The three probe points: twice the direction ahead, then that offset
   * turned by 45 degrees, then turned back by 90 degrees.
   */
  function Probes(p: Vec, direction: Vec, m: VecMath): (probes: seq<Vec>)
    ensures |probes| == 3
  {
    var d0 := direction.Scaled(2.0);
    var d1 := m.Rotated(d0, 45.0);
    var d2 := m.Rotated(d1, 45.0 * -2.0);
    [p.Plus(d0), p.Plus(d1), p.Plus(d2)]
  }

  /** The guidance decision from the three probe losses. */
  function Steering(l0: int, l1: int, l2: int): (t: Turn)
    ensures t == TowardPlus45 <==> l1 < l0
    ensures t == TowardMinus45 <==> l0 <= l1 && l2 < l0
    ensures t == Keep <==> l0 <= l1 && l0 <= l2
  {
    if l1 < l0 then TowardPlus45 else if l2 < l0 then TowardMinus45 else Keep
  }

  /** The velocity after the guidance decision: rotated at most once. */
  function Steered(v: Vec, t: Turn, angle: real, delta: real, m: VecMath): Vec
  {
    match t
    case Keep => v
    case TowardPlus45 => m.Rotated(v, angle * delta)
    case TowardMinus45 => m.Rotated(v, angle * -2.0 * delta)
  }

  /** Steered, case by case: unfolds the definition for GuidedTurns and Guide. */
  lemma SteeredCases(v: Vec, angle: real, delta: real, m: VecMath)
    ensures Steered(v, Keep, angle, delta, m) == v
    ensures Steered(v, TowardPlus45, angle, delta, m) == m.Rotated(v, angle * delta)
    ensures Steered(v, TowardMinus45, angle, delta, m) == m.Rotated(v, angle * -2.0 * delta)
  {
  }

  /** The speed cap update() applies first: a component beyond 100 in size normalizes the velocity. */
  function Calmed(v: Vec, m: VecMath): Vec
  {
    if Abs(v.x) > 100.0 || Abs(v.y) > 100.0 then m.Normalized(v) else v
  }

  /** The velocity clamp of update(): a component above 500 becomes 0; only the positive side is checked. */
  function Capped(v: Vec): Vec
  {
    Vec(if v.x > 500.0 then 0.0 else v.x, if v.y > 500.0 then 0.0 else v.y)
  }

  /** The position clamp of update(): a negative component becomes 0. */
  function NonNegative(p: Vec): Vec
  {
    Vec(if p.x < 0.0 then 0.0 else p.x, if p.y < 0.0 then 0.0 else p.y)
  }

  /**
   * update() up to the reference-surface block: velocity gains the
   * acceleration, which is cleared; the direction follows the velocity; the
   * position moves by the undamped velocity; then damping, and the two
   * clamps (a velocity component above 500 becomes 0, a negative position
   * component becomes 0).
   */
  function Integrated(k: Kinematics, delta: real, prm: Tuning, m: VecMath): (r: Kinematics)
    ensures r.acceleration == Zero
    ensures 0.0 <= r.position.x && 0.0 <= r.position.y
    ensures r.velocity.x <= 500.0 && r.velocity.y <= 500.0
    ensures r.direction == m.Normalized(Calmed(k.velocity, m).Plus(k.acceleration))
  {
    var v := Calmed(k.velocity, m).Plus(k.acceleration);
    var p := k.position.Plus(v.Scaled(delta * prm.speedRatio));
    var d := v.Scaled(prm.dampness);
    Kinematics(NonNegative(p), m.Normalized(v), Capped(d), Zero)
  }

  /**
   * The reference-surface block of update(): wrap the position, probe three
   * points ahead, and turn toward the +45 probe if its colour loss is lower
   * than the straight one's, else toward the -45 probe if its is.
   */
  function Guided(k: Kinematics, delta: real, prm: Tuning, s: Surface, m: VecMath): Kinematics
    requires s.Valid()
  {
    var p := Wrapped(k.position, s);
    var l := Losses(s, p, k.direction, m);
    k.(position := p, velocity := Steered(k.velocity, Steering(l[0], l[1], l[2]), prm.colorRedirection, delta, m))
  }

  /** The colour losses of the three probes around position p, against the colour at p. */
  function Losses(s: Surface, p: Vec, direction: Vec, m: VecMath): (l: seq<int>)
    requires s.Valid()
    ensures |l| == 3
  {
    var current := s.colorAt(Trunc(p.x), Trunc(p.y));
    var probes := Probes(p, direction, m);
    seq(3, j requires 0 <= j < 3 => ProbeLoss(s, current, probes[j]))
  }

  /** Guided, read from its parts: unfolds the definition for Guide. */
  lemma GuidedParts(k: Kinematics, delta: real, prm: Tuning, s: Surface, m: VecMath, p: Vec, l: seq<int>, v: Vec)
    requires s.Valid()
    requires p == Wrapped(k.position, s) && l == Losses(s, p, k.direction, m)
    requires v == Steered(k.velocity, Steering(l[0], l[1], l[2]), prm.colorRedirection, delta, m)
    ensures Guided(k, delta, prm, s, m) == k.(position := p, velocity := v)
  {
  }

  /**
   * The reference-surface block keeps the direction and the acceleration,
   * moves the particle to its wrapped position, and turns the velocity by
   * +angle*delta when the +45 probe loses less colour than the straight one,
   * else by -2*angle*delta when the -45 probe does, and not at all otherwise.
   */
  lemma GuidedTurns(k: Kinematics, delta: real, prm: Tuning, s: Surface, m: VecMath)
    requires s.Valid()
    ensures var p := Wrapped(k.position, s);
      var l := Losses(s, p, k.direction, m);
      var g := Guided(k, delta, prm, s, m);
      && g.position == p && g.direction == k.direction && g.acceleration == k.acceleration
      && (l[1] < l[0] ==> g.velocity == m.Rotated(k.velocity, prm.colorRedirection * delta))
      && (l[0] <= l[1] && l[2] < l[0] ==> g.velocity == m.Rotated(k.velocity, prm.colorRedirection * -2.0 * delta))
      && (l[0] <= l[1] && l[0] <= l[2] ==> g.velocity == k.velocity)
  {
    SteeredCases(k.velocity, prm.colorRedirection, delta, m);
  }

  /** The whole of update(). */
  function Step(k: Kinematics, delta: real, prm: Tuning, surface: Option<Surface>, m: VecMath): Kinematics
    requires surface.Some? ==> surface.value.Valid()
  {
    var i := Integrated(k, delta, prm, m);
    match surface
    case None => i
    case Some(s) => Guided(i, delta, prm, s, m)
  }

  /**
   * After update() the acceleration is zero, and the position lies inside
   * the image when there is one (so the pixel sampled at the position is a
   * pixel of the image), and is non-negative otherwise.
   */
  lemma StepBounds(k: Kinematics, delta: real, prm: Tuning, surface: Option<Surface>, m: VecMath)
    requires surface.Some? ==> surface.value.Valid()
    ensures Step(k, delta, prm, surface, m).acceleration == Zero
    ensures surface.None? ==> 0.0 <= Step(k, delta, prm, surface, m).position.x && 0.0 <= Step(k, delta, prm, surface, m).position.y
    ensures surface.Some? ==>
      var p := Step(k, delta, prm, surface, m).position;
      && 0.0 <= p.x < surface.value.width as real && 0.0 <= p.y < surface.value.height as real
      && 0 <= Trunc(p.x) < surface.value.width && 0 <= Trunc(p.y) < surface.value.height
  {
    if surface.Some? {
      var s := surface.value;
      var p := Step(k, delta, prm, surface, m).position;
      TruncBelow(p.x, s.width);
      TruncBelow(p.y, s.height);
    }
  }

  /** The speed limit: the squared limits are used as the new magnitude. */
  function Limited(v: Vec, direction: Vec, maxSpeedSquared: real, minSpeedSquared: real): Vec
  {
    if v.LengthSquared() > maxSpeedSquared then direction.Scaled(maxSpeedSquared)
    else if v.LengthSquared() < minSpeedSquared then direction.Scaled(minSpeedSquared)
    else v
  }

  lemma ScaledLength(d: Vec, k: real)
    ensures d.Scaled(k).LengthSquared() == k * k * d.LengthSquared()
  {
    assert (d.x * k) * (d.x * k) == k * k * (d.x * d.x);
    assert (d.y * k) * (d.y * k) == k * k * (d.y * d.y);
  }

  /**
   * For a unit direction, limitSpeed leaves a squared speed of max² above
   * the upper limit and of min² below the lower one, and an in-range
   * velocity untouched. So with a limit above 1 a fast particle stays above
   * its limit: the limit is the speed squared but is applied as a speed.
   */
  lemma LimitedSpeed(v: Vec, direction: Vec, maxSpeedSquared: real, minSpeedSquared: real)
    requires direction.LengthSquared() == 1.0
    ensures var r := Limited(v, direction, maxSpeedSquared, minSpeedSquared);
      && (v.LengthSquared() > maxSpeedSquared ==> r.LengthSquared() == maxSpeedSquared * maxSpeedSquared)
      && (minSpeedSquared <= v.LengthSquared() <= maxSpeedSquared ==> r == v)
      && (v.LengthSquared() < minSpeedSquared <= maxSpeedSquared ==> r.LengthSquared() == minSpeedSquared * minSpeedSquared)
      && (v.LengthSquared() > maxSpeedSquared > 1.0 ==> r.LengthSquared() > maxSpeedSquared)
  {
    ScaledLength(direction, maxSpeedSquared);
    ScaledLength(direction, minSpeedSquared);
    if maxSpeedSquared > 1.0 {
      assert maxSpeedSquared * maxSpeedSquared > maxSpeedSquared * 1.0;
    }
  }

  /** An unsigned-char conversion of a float: truncation, then the low 8 bits. */
  function ByteCast(r: real): (b: Byte)
    ensures 0.0 <= r < 256.0 ==> b == Trunc(r)
    ensures 0.0 <= r < 255.0 ==> b < 255
  {
    Trunc(r) % 256
  }

  /**
   * updateTimer(): lifeTime grows and lifeTimeLeft shrinks by delta, so
   * their sum is kept. Alpha fades in while lifeTime is below 1, fades out
   * while lifeTimeLeft is below 1, and is otherwise left alone.
   */
  function Aged(c: Lifecycle, delta: real): (r: Lifecycle)
    ensures r.lifeTime + r.lifeTimeLeft == c.lifeTime + c.lifeTimeLeft
    ensures r.lifeTime == c.lifeTime + delta
    ensures 0.0 <= r.lifeTime < 1.0 ==> r.alpha == Trunc(255.0 * r.lifeTime) < 255
    ensures 1.0 <= r.lifeTime && 0.0 <= r.lifeTimeLeft < 1.0 ==> r.alpha == Trunc(255.0 * r.lifeTimeLeft) < 255
    ensures 1.0 <= r.lifeTime && 1.0 <= r.lifeTimeLeft ==> r.alpha == c.alpha
  {
    var lifeTime := c.lifeTime + delta;
    var left := c.lifeTimeLeft - delta;
    var alpha :=
      if lifeTime < 1.0 then ByteCast(255.0 * lifeTime)
      else if left < 1.0 then ByteCast(255.0 * left)
      else c.alpha;
    Lifecycle(lifeTime, left, alpha)
  }

  /** What a particle's kinematic update leaves alone. */
  datatype Traits = Traits(stablePosition: Vec, life: Lifecycle, maxSpeedSquared: real, minSpeedSquared: real,
                           flockLeader: bool, group: int)

  class Particle {
    var position: Vec
    var stablePosition: Vec
    var direction: Vec
    var velocity: Vec
    var acceleration: Vec
    var alpha: Byte
    var maxSpeedSquared: real
    var minSpeedSquared: real
    var lifeTime: real
    var lifeTimeLeft: real
    var flockLeader: bool
    var group: int

    function Kin(): Kinematics
      reads this`position, this`direction, this`velocity, this`acceleration
    {
      Kinematics(position, direction, velocity, acceleration)
    }

    function Life(): Lifecycle
      reads this`lifeTime, this`lifeTimeLeft, this`alpha
    {
      Lifecycle(lifeTime, lifeTimeLeft, alpha)
    }

    function Fixed(): Traits
      reads this`stablePosition, this`lifeTime, this`lifeTimeLeft, this`alpha
      reads this`maxSpeedSquared, this`minSpeedSquared, this`flockLeader, this`group
    {
      Traits(stablePosition, Life(), maxSpeedSquared, minSpeedSquared, flockLeader, group)
    }

    /** A particle at rest at `position`, heading along `direction`, in no group. */
    constructor (position: Vec, direction: Vec)
      ensures Kin() == Kinematics(position, direction, Zero, Zero)
      ensures stablePosition == position && alpha == 0
      ensures maxSpeedSquared == 0.0 && minSpeedSquared == 0.0
      ensures lifeTime == 0.0 && lifeTimeLeft == 0.0
      ensures !flockLeader && group == -1
    {
      this.position := position;
      stablePosition := position;
      this.direction := direction;
      alpha := 0;
      velocity := Zero;
      acceleration := Zero;
      maxSpeedSquared, minSpeedSquared := 0.0, 0.0;
      lifeTime, lifeTimeLeft := 0.0, 0.0;
      flockLeader := false;
      group := -1;
    }

    /** applyForce: push the velocity, follow it with the direction, optionally limit the speed. */
    method ApplyForce(force: Vec, limit: bool, m: VecMath)
      modifies this`velocity, this`direction
      ensures direction == m.Normalized(old(velocity).Plus(force))
      ensures !limit ==> velocity == old(velocity).Plus(force)
      ensures limit ==> velocity == Limited(old(velocity).Plus(force), direction, maxSpeedSquared, minSpeedSquared)
    {
      velocity := velocity.Plus(force);
      direction := m.Normalized(velocity);
      if limit {
        LimitSpeed();
      }
    }

    /** limitSpeed: exactly one of raise-to-min, cut-to-max or leave. */
    method LimitSpeed()
      modifies this`velocity
      ensures velocity == Limited(old(velocity), direction, maxSpeedSquared, minSpeedSquared)
    {
      var lengthSquared := velocity.LengthSquared();
      if lengthSquared > maxSpeedSquared {
        velocity := direction.Scaled(maxSpeedSquared);
      } else if lengthSquared < minSpeedSquared {
        velocity := direction.Scaled(minSpeedSquared);
      }
    }

    /** updateTimer. */
    method UpdateTimer(delta: real)
      modifies this`lifeTime, this`lifeTimeLeft, this`alpha
      ensures Life() == Aged(old(Life()), delta)
    {
      lifeTime := lifeTime + delta;
      lifeTimeLeft := lifeTimeLeft - delta;
      if lifeTime < 1.0 {
        alpha := ByteCast(255.0 * lifeTime);
      } else if lifeTimeLeft < 1.0 {
        alpha := ByteCast(255.0 * lifeTimeLeft);
      }
    }

    /**
     * update. The current time is not used. `surface` is the emitter's
     * reference image, which every particle shares.
     */
    method Update(currentTime: real, delta: real, prm: Tuning, surface: Option<Surface>, m: VecMath)
      requires surface.Some? ==> surface.value.Valid()
      modifies this`position, this`direction, this`velocity, this`acceleration
      ensures Kin() == Step(old(Kin()), delta, prm, surface, m)
    {
      Integrate(delta, prm, m);
      if surface.Some? {
        Guide(delta, prm, surface.value, m);
      }
    }

    /**
     * The first part of update: cap, accelerate, integrate, damp and clamp.
     */
    method Integrate(delta: real, prm: Tuning, m: VecMath)
      modifies this`position, this`direction, this`velocity, this`acceleration
      ensures Kin() == Integrated(old(Kin()), delta, prm, m)
    {
      if Abs(velocity.x) > 100.0 || Abs(velocity.y) > 100.0 {
        velocity := m.Normalized(velocity);
      }
      velocity := velocity.Plus(acceleration);
      acceleration := Zero;
      direction := m.Normalized(velocity);
      position := position.Plus(velocity.Scaled(delta * prm.speedRatio));
      velocity := velocity.Scaled(prm.dampness);
      velocity := Capped(velocity);
      position := NonNegative(position);
    }

    /**
     * The reference-surface block of update: wrap the position, probe the
     * image three times ahead and steer by the colour losses.
     */
    method Guide(delta: real, prm: Tuning, s: Surface, m: VecMath)
      requires s.Valid()
      modifies this`position, this`velocity
      ensures Kin() == Guided(old(Kin()), delta, prm, s, m)
    {
      position := Wrapped(position, s);
      var tempDir := direction.Scaled(2.0);
      var angle := 45.0;
      var current := s.colorAt(Trunc(position.x), Trunc(position.y));
      var next0 := position.Plus(tempDir);
      tempDir := m.Rotated(tempDir, angle);
      var next1 := position.Plus(tempDir);
      tempDir := m.Rotated(tempDir, angle * -2.0);
      var next2 := position.Plus(tempDir);
      var next := [next0, next1, next2];
      assert next == Probes(position, direction, m);
      var l := [0, 0, 0];
      for j := 0 to 3
        invariant |l| == 3
        invariant forall q :: 0 <= q < j ==> l[q] == ProbeLoss(s, current, next[q])
      {
        l := l[j := ProbeLoss(s, current, next[j])];
      }
      assert l == Losses(s, position, direction, m);
      angle := prm.colorRedirection;
      SteeredCases(velocity, angle, delta, m);
      if l[1] < l[0] {
        velocity := m.Rotated(velocity, angle * delta);
      } else if l[2] < l[0] {
        velocity := m.Rotated(velocity, angle * -2.0 * delta);
      }
      GuidedParts(old(Kin()), delta, prm, s, m, position, l, velocity);
    }
  }
}
