/**
 * ParticleEmitter: the groups of particles, their population control (one
 * step toward the wanted number of groups and particles per group each
 * frame), the flocking timer, and the work split over four workers, each
 * of which runs the flocking pass and the particles' own update on its
 * groups.
 */
module Emitters {
  import opened Vectors
  import opened Options
  import opened Particles
  import opened Flocking

  /** The number of worker threads. */
  const Threads: nat := 4

  /** The flocking pass runs when this much time has passed since the last one. */
  const UpdateFlockEvery: real := 0.1

  /** The emission area's share of the reference surface, in each dimension. */
  const EmissionAreaPercentage: real := 0.3

  /** The random draws of one particle in addParticles. */
  datatype SpawnDraw = SpawnDraw(angleVar: real, x: real, y: real, maxSpeedSquared: real, minSpeedSquared: real)

  /** The random draws of one addParticles call: the emission area's corner, the base angle, one draw per particle. */
  datatype SpawnDraws = SpawnDraws(areaX: real, areaY: real, angle: real, each: seq<SpawnDraw>)
  {
    /**
     * The ranges ofRandom draws from, for `amount` particles; the emission
     * area and the positions are drawn only when there is a reference
     * surface.
     */
    predicate Fits(amount: nat, surface: Option<Surface>)
    {
      && |each| == amount
      && 0.0 <= angle <= 2.0 * Pi
      && (surface.Some? ==>
            var w, h := surface.value.width as real, surface.value.height as real;
            0.0 <= areaX <= w - w * EmissionAreaPercentage && 0.0 <= areaY <= h - h * EmissionAreaPercentage)
      && forall i :: 0 <= i < |each| ==> Fit(each[i], surface)
    }

    predicate Fit(e: SpawnDraw, surface: Option<Surface>)
    {
      && 0.0 <= e.angleVar <= 0.8 * Pi
      && 10.0 <= e.maxSpeedSquared <= 50.0
      && 1.0 <= e.minSpeedSquared <= 10.0
      && (surface.Some? ==>
            var w, h := surface.value.width as real, surface.value.height as real;
            areaX <= e.x <= areaX + w * EmissionAreaPercentage && areaY <= e.y <= areaY + h * EmissionAreaPercentage)
    }
  }

  /** Draws in range exist for any number of particles and any surface of non-negative size. */
  lemma DrawsExist(amount: nat, surface: Option<Surface>)
    requires surface.Some? ==> surface.value.Valid()
    ensures exists d: SpawnDraws :: d.Fits(amount, surface)
  {
    var d := SpawnDraws(0.0, 0.0, 0.0, seq(amount, _ => SpawnDraw(0.0, 0.0, 0.0, 10.0, 1.0)));
    assert d.Fits(amount, surface);
  }

  /** With a reference surface, every particle addParticles places lies on it. */
  lemma SpawnOnSurface(d: SpawnDraws, amount: nat, s: Surface, i: nat)
    requires s.Valid() && d.Fits(amount, Some(s)) && i < amount
    ensures 0.0 <= d.each[i].x <= s.width as real
    ensures 0.0 <= d.each[i].y <= s.height as real
  {
    assert d.Fit(d.each[i], Some(s));
  }

  /** Where addParticles puts its i-th particle: a drawn point of the emission area, or the emitter's position without a surface. */
  function SpawnPosition(d: SpawnDraws, i: nat, origin: Vec, surface: Option<Surface>): Vec
    requires i < |d.each|
  {
    if surface.Some? then Vec(d.each[i].x, d.each[i].y) else origin
  }

  /** The heading addParticles gives its i-th particle: the base angle plus that particle's variation, as (sin, cos). */
  function SpawnHeading(d: SpawnDraws, i: nat, m: VecMath): Vec
    requires i < |d.each|
  {
    Vec(m.Sin(d.angle + d.each[i].angleVar), m.Cos(d.angle + d.each[i].angleVar))
  }

  /** The kinematics addParticles gives its i-th particle: at rest, accelerating along its heading by 2.5. */
  function SpawnKin(d: SpawnDraws, i: nat, origin: Vec, surface: Option<Surface>, m: VecMath): Kinematics
    requires i < |d.each|
  {
    var dir := SpawnHeading(d, i, m);
    Kinematics(SpawnPosition(d, i, origin, surface), dir, Zero, m.Normalized(dir).Scaled(2.5))
  }

  /** The state addParticles gives the i-th particle it creates. */
  ghost predicate Spawned(p: Particle, group: nat, d: SpawnDraws, i: nat, origin: Vec, surface: Option<Surface>, m: VecMath)
    reads p
    requires i < |d.each|
  {
    var e := d.each[i];
    var pos := SpawnPosition(d, i, origin, surface);
    && p.Kin() == SpawnKin(d, i, origin, surface, m)
    && p.Fixed() == Traits(pos, Lifecycle(0.0, 0.0, 0), e.maxSpeedSquared, e.minSpeedSquared, false, group)
  }

  /** Kinematics addParticles can give a new particle, for some draws in their ranges. */
  ghost predicate Newborn(k: Kinematics, origin: Vec, surface: Option<Surface>, m: VecMath)
  {
    exists d: SpawnDraws, i: nat :: i < |d.each| && d.Fits(|d.each|, surface) && k == SpawnKin(d, i, origin, surface, m)
  }

  /** A spawned particle's kinematics are newborn. */
  lemma SpawnedNewborn(p: Particle, group: nat, d: SpawnDraws, i: nat, origin: Vec, surface: Option<Surface>, m: VecMath)
    requires i < |d.each| && d.Fits(|d.each|, surface) && Spawned(p, group, d, i, origin, surface, m)
    ensures Newborn(p.Kin(), origin, surface, m)
  {
  }

  /**
   * A new particle starts at rest, accelerating by 2.5 along the
   * normalisation of its heading, a (sin, cos) pair; it is placed on the
   * reference surface, or at the emitter's position without one.
   */
  lemma NewbornState(k: Kinematics, origin: Vec, surface: Option<Surface>, m: VecMath)
    requires surface.Some? ==> surface.value.Valid()
    requires Newborn(k, origin, surface, m)
    ensures k.velocity == Zero
    ensures k.acceleration == m.Normalized(k.direction).Scaled(2.5)
    ensures exists a :: k.direction == Vec(m.Sin(a), m.Cos(a))
    ensures surface.None? ==> k.position == origin
    ensures surface.Some? ==>
      0.0 <= k.position.x <= surface.value.width as real && 0.0 <= k.position.y <= surface.value.height as real
  {
    var d: SpawnDraws, i: nat :| i < |d.each| && d.Fits(|d.each|, surface) && k == SpawnKin(d, i, origin, surface, m);
    var a := d.angle + d.each[i].angleVar;
    assert k.direction == Vec(m.Sin(a), m.Cos(a));
    if surface.Some? {
      SpawnOnSurface(d, |d.each|, surface.value, i);
    }
  }

  /** One particle of addParticles' loop. */
  method Spawn(group: nat, d: SpawnDraws, i: nat, origin: Vec, surface: Option<Surface>, m: VecMath) returns (p: Particle)
    requires i < |d.each| && d.Fit(d.each[i], surface)
    ensures fresh(p) && Spawned(p, group, d, i, origin, surface, m)
    ensures p.group == group && Drawn(p)
  {
    var e := d.each[i];
    var angleVector := SpawnHeading(d, i, m);
    var pos := SpawnPosition(d, i, origin, surface);
    if surface.Some? {
      p := new Particle(Vec(e.x, e.y), angleVector);
    } else {
      p := new Particle(origin, angleVector);
    }
    p.maxSpeedSquared := e.maxSpeedSquared;
    p.minSpeedSquared := e.minSpeedSquared;
    p.acceleration := m.Normalized(p.direction).Scaled(2.5);
    p.group := group;
    assert p.position == pos && p.stablePosition == pos && p.direction == angleVector;
    assert p.Kin() == SpawnKin(d, i, origin, surface, m);
    assert p.Fixed() == Traits(pos, Lifecycle(0.0, 0.0, 0), e.maxSpeedSquared, e.minSpeedSquared, false, group);
  }

  /** The speed limits every emitted particle carries. */
  ghost predicate Drawn(p: Particle)
    reads p`maxSpeedSquared, p`minSpeedSquared
  {
    10.0 <= p.maxSpeedSquared <= 50.0 && 1.0 <= p.minSpeedSquared <= 10.0
  }

  /** Two different numbers with the same residue modulo Threads are at least Threads apart. */
  lemma ResidueGap(a: nat, b: nat)
    requires a % Threads == b % Threads && a < b
    ensures a + Threads <= b
  {
    assert a == Threads * (a / Threads) + a % Threads;
    assert b == Threads * (b / Threads) + b % Threads;
  }

  /** Adding Threads keeps the residue modulo Threads. */
  lemma ResidueStep(a: nat)
    ensures (a + Threads) % Threads == a % Threads
  {
    assert a == Threads * (a / Threads) + a % Threads;
    assert a + Threads == Threads * (a / Threads + 1) + a % Threads;
  }

  /**
   * Whether group g has had its turn once worker t is at group `upto`:
   * the workers before t have finished, and worker t has passed g.
   */
  ghost predicate Ran(g: nat, t: nat, upto: nat)
  {
    g % Threads < t || (g % Threads == t && g < upto)
  }

  /** `target` holds each group of `start` after its turn in a round. */
  ghost predicate Planned(start: seq<seq<Kinematics>>, target: seq<seq<Kinematics>>, timer0: real, last0: real, now: real,
                          cfg: FlockConfig, delta: real, prm: Tuning, surface: Option<Surface>, m: VecMath)
    requires surface.Some? ==> surface.value.Valid()
  {
    && |start| == |target|
    && forall g {:trigger GroupStep(start[g], GroupFlock(g, timer0, last0, now), cfg, delta, prm, surface, m)} ::
         0 <= g < |start| ==> target[g] == GroupStep(start[g], GroupFlock(g, timer0, last0, now), cfg, delta, prm, surface, m)
  }

  /** The state each group reaches in a round, from the state before it. */
  lemma MakePlan(start: seq<seq<Kinematics>>, timer0: real, last0: real, now: real,
                 cfg: FlockConfig, delta: real, prm: Tuning, surface: Option<Surface>, m: VecMath)
    returns (target: seq<seq<Kinematics>>)
    requires surface.Some? ==> surface.value.Valid()
    ensures Planned(start, target, timer0, last0, now, cfg, delta, prm, surface, m)
    ensures forall g :: 0 <= g < |start| ==> |target[g]| == |start[g]|
  {
    target := seq(|start|, g requires 0 <= g < |start| =>
      GroupStep(start[g], GroupFlock(g, timer0, last0, now), cfg, delta, prm, surface, m));
  }

  /** No particle appears twice in the list. */
  ghost predicate Distinct(ps: seq<Particle>)
  {
    forall a, b :: 0 <= a < |ps| && 0 <= b < |ps| && a != b ==> ps[a] != ps[b]
  }

  /** No particle appears twice in the groups, within one group or across two. */
  ghost predicate Disjoint(pss: seq<seq<Particle>>)
  {
    forall g, h, a, b :: 0 <= g < |pss| && 0 <= h < |pss| && 0 <= a < |pss[g]| && 0 <= b < |pss[h]| && (g != h || a != b) ==>
      pss[g][a] != pss[h][b]
  }

  /** Groups whose every particle holds its planned state hold their planned states. */
  lemma RoundDone(pss: seq<seq<Particle>>, target: seq<seq<Kinematics>>)
    requires |target| == |pss| && forall g :: 0 <= g < |pss| ==> |target[g]| == |pss[g]|
    requires forall g, k :: 0 <= g < |pss| && 0 <= k < |pss[g]| ==> pss[g][k].Kin() == target[g][k]
    ensures forall g :: 0 <= g < |pss| ==> KinsOf(pss[g]) == target[g]
  {
    forall g | 0 <= g < |pss| ensures KinsOf(pss[g]) == target[g] {
      assert forall k :: 0 <= k < |pss[g]| ==> KinsOf(pss[g])[k] == target[g][k];
    }
  }

  /** The kinematic state of each particle of a list. */
  ghost function KinsOf(ps: seq<Particle>): (ks: seq<Kinematics>)
    reads set p | p in ps
    ensures |ks| == |ps| && forall k :: 0 <= k < |ps| ==> ks[k] == ps[k].Kin()
  {
    seq(|ps|, k requires 0 <= k < |ps| reads set p | p in ps => ps[k].Kin())
  }

  /** Every particle still in both lists of groups is the same object at the same place. */
  ghost predicate Kept(before: seq<seq<Particle>>, after: seq<seq<Particle>>)
  {
    forall g, k :: 0 <= g < |before| && g < |after| && 0 <= k < |before[g]| && k < |after[g]| ==> after[g][k] == before[g][k]
  }

  /** The number of particles per group after one frame of population control. */
  function NextPerGroup(current: nat, target: nat): (r: nat)
    ensures current < target ==> current < r <= target && r <= current + 2
    ensures target <= current ==> r == target
  {
    if target > current then current + Min(2, target - current) else target
  }

  /** The number of particles per group after `frames` frames with the same target. */
  function PerGroupAfter(current: nat, target: nat, frames: nat): nat
    decreases frames
  {
    if frames == 0 then current else PerGroupAfter(NextPerGroup(current, target), target, frames - 1)
  }

  /**
   * Population control reaches a larger target within half the shortfall
   * (rounded up) frames, and a smaller one in a single frame; after that it
   * stays there.
   */
  lemma {:induction false} PerGroupSettles(current: nat, target: nat, frames: nat)
    requires current < target ==> frames >= (target - current + 1) / 2
    requires target <= current ==> frames >= 1
    ensures PerGroupAfter(current, target, frames) == target
    decreases frames
  {
    var next := NextPerGroup(current, target);
    if next == target {
      TargetStays(target, frames - 1);
    } else {
      PerGroupSettles(next, target, frames - 1);
    }
  }

  lemma {:induction false} TargetStays(target: nat, frames: nat)
    ensures PerGroupAfter(target, target, frames) == target
  {
    if frames > 0 {
      TargetStays(target, frames - 1);
    }
  }

  /** The flocking timers after update's own bookkeeping, before any group runs. */
  function Timers(timer: real, last: real, now: real, delta: real): (r: (real, real))
  {
    if last == 0.0 then (UpdateFlockEvery, now - UpdateFlockEvery) else (timer + delta, last)
  }

  /** The strength scale of a flocking pass: the time since the last pass in units of the flocking period. */
  function FlockRatio(now: real, last: real): real
  {
    (now - last) / UpdateFlockEvery
  }

  /**
   * On the first frame (no pass yet) the timer is primed so that the first
   * group flocks at once, with a ratio of exactly one period; afterwards the
   * timer only accumulates the frame times.
   */
  lemma TimersPrimeFirstFrame(timer: real, last: real, now: real, delta: real)
    ensures last == 0.0 ==> Timers(timer, last, now, delta).0 >= UpdateFlockEvery
    ensures last == 0.0 ==> FlockRatio(now, Timers(timer, last, now, delta).1) == 1.0
    ensures last != 0.0 ==> Timers(timer, last, now, delta) == (timer + delta, last)
  {
  }

  /** Whether (and at what ratio) group g flocks in a round: only the first group can, since the timer is shared. */
  function GroupFlock(g: nat, timer: real, last: real, now: real): Option<real>
  {
    if g == 0 && timer >= UpdateFlockEvery then Some(FlockRatio(now, last)) else None
  }

  /** The groups worker t runs, from group g on: every Threads-th group below n. */
  function WorkFrom(g: nat, n: nat): seq<nat>
    decreases n - g
  {
    if g >= n then [] else [g] + WorkFrom(g + Threads, n)
  }

  /** The groups workers 0 .. t-1 run, worker by worker. */
  function WorkPrefix(t: nat, n: nat): seq<nat>
  {
    if t == 0 then [] else WorkPrefix(t - 1, n) + WorkFrom(t - 1, n)
  }

  /** The order in which the groups of a round run, the workers taken one after the other. */
  function WorkOrder(n: nat): seq<nat>
  {
    WorkPrefix(Threads, n)
  }

  lemma {:induction false} WorkFromMembership(s: nat, n: nat, g: nat)
    ensures g in WorkFrom(s, n) <==> s <= g < n && (g - s) % Threads == 0
    decreases n - s
  {
    if s < n {
      WorkFromMembership(s + Threads, n, g);
      if s + Threads <= g {
        assert (g - s) % Threads == (g - (s + Threads)) % Threads;
      } else if s < g {
        assert 0 < g - s < Threads;
      }
    }
  }

  lemma {:induction false} WorkPrefixMembership(t: nat, n: nat, g: nat)
    requires t <= Threads
    ensures g in WorkPrefix(t, n) <==> g < n && g % Threads < t
  {
    if t > 0 {
      WorkPrefixMembership(t - 1, n, g);
      WorkFromMembership(t - 1, n, g);
      if g % Threads == t - 1 && t - 1 <= g {
        assert (g - (t - 1)) % Threads == 0;
      }
      if t - 1 <= g && (g - (t - 1)) % Threads == 0 {
        assert g % Threads == t - 1;
      }
    }
  }

  /** A round runs every group there is, and no other. */
  lemma WorkOrderCovers(n: nat, g: nat)
    ensures g in WorkOrder(n) <==> g < n
  {
    WorkPrefixMembership(Threads, n, g);
  }

  ghost predicate NoRepeats(s: seq<nat>)
  {
    forall a, b :: 0 <= a < |s| && 0 <= b < |s| && a != b ==> s[a] != s[b]
  }

  lemma {:induction false} WorkFromOnce(s: nat, n: nat)
    ensures NoRepeats(WorkFrom(s, n))
    ensures forall i :: 0 <= i < |WorkFrom(s, n)| ==> s <= WorkFrom(s, n)[i] && WorkFrom(s, n)[i] % Threads == s % Threads
    decreases n - s
  {
    if s < n {
      WorkFromOnce(s + Threads, n);
      assert (s + Threads) % Threads == s % Threads;
    }
  }

  lemma {:induction false} WorkPrefixOnce(t: nat, n: nat)
    requires t <= Threads
    ensures NoRepeats(WorkPrefix(t, n))
    ensures forall i :: 0 <= i < |WorkPrefix(t, n)| ==> WorkPrefix(t, n)[i] % Threads < t
  {
    if t > 0 {
      WorkPrefixOnce(t - 1, n);
      WorkFromOnce(t - 1, n);
      var a, b := WorkPrefix(t - 1, n), WorkFrom(t - 1, n);
      assert WorkPrefix(t, n) == a + b;
      forall i | 0 <= i < |b| ensures b[i] % Threads == t - 1 {
        assert (t - 1) % Threads == t - 1;
      }
    }
  }

  /** A round runs each group once. */
  lemma WorkOrderOnce(n: nat)
    ensures NoRepeats(WorkOrder(n))
  {
    WorkPrefixOnce(Threads, n);
  }

  /** Group 0 runs first, so it is the group that sees the flocking timer. */
  lemma WorkOrderStartsAtZero(n: nat)
    requires n > 0
    ensures |WorkOrder(n)| > 0 && WorkOrder(n)[0] == 0
  {
    var w1 := WorkPrefix(1, n);
    assert WorkPrefix(0, n) == [];
    assert w1 == WorkFrom(0, n) == [0] + WorkFrom(Threads, n);
    var w2 := WorkPrefix(2, n);
    assert w2 == w1 + WorkFrom(1, n) && w2[0] == 0;
    var w3 := WorkPrefix(3, n);
    assert w3 == w2 + WorkFrom(2, n) && w3[0] == 0;
    assert WorkOrder(n) == w3 + WorkFrom(3, n);
  }

  /**
   * One row of the flocking pass: particle i against every later particle,
   * each pair adding its exchange to the two accelerations.
   */
  method FlockRow(ps: seq<Particle>, i: nat, rule: PairRule,
                  ghost bodies: seq<Body>, ghost cur0: seq<Vec>) returns (ghost cur: seq<Vec>)
    requires Distinct(ps) && i < |ps| && |bodies| == |cur0| == |ps|
    requires forall k :: i <= k < |ps| ==> BodyOf(ps[k].Kin()) == bodies[k] && ps[k].acceleration == cur0[k]
    modifies ps`acceleration
    ensures forall k :: 0 <= k < i ==> ps[k].acceleration == old(ps[k].acceleration)
    ensures cur == Accumulate(cur0, bodies, Row(i, |ps|), rule)
    ensures forall k :: i <= k < |ps| ==> ps[k].acceleration == cur[k]
  {
    var n := |ps|;
    var j := i + 1;
    cur := cur0;
    while j < n
      invariant i + 1 <= j <= n && |cur| == n
      invariant cur == Accumulate(cur0, bodies, Row(i, j), rule)
      invariant forall k :: 0 <= k < i ==> ps[k].acceleration == old(ps[k].acceleration)
      invariant forall k :: i <= k < n ==> ps[k].acceleration == cur[k]
    {
      cur := FlockPair(ps, i, j, rule, bodies, cur0, cur);
      j := j + 1;
    }
  }

  /** One pair of the flocking pass: the exchange between particles i and j, added to their accelerations, extends the row by that pair. */
  method FlockPair(ps: seq<Particle>, i: nat, j: nat, rule: PairRule,
                   ghost bodies: seq<Body>, ghost cur0: seq<Vec>, ghost cur: seq<Vec>) returns (ghost next: seq<Vec>)
    requires Distinct(ps) && i < j < |ps| && |bodies| == |cur| == |ps|
    requires BodyOf(ps[i].Kin()) == bodies[i] && BodyOf(ps[j].Kin()) == bodies[j]
    requires cur == Accumulate(cur0, bodies, Row(i, j), rule)
    requires forall k :: i <= k < |ps| ==> ps[k].acceleration == cur[k]
    modifies {ps[i], ps[j]}`acceleration
    ensures next == Accumulate(cur0, bodies, Row(i, j + 1), rule)
    ensures forall k :: i <= k < |ps| ==> ps[k].acceleration == next[k]
  {
    var p1, p2 := ps[i], ps[j];
    var e := rule(Body(p1.position, p1.direction), Body(p2.position, p2.direction));
    ExchangeAccelerations(p1, p2, e);
    RowStep(cur0, bodies, i, j, rule);
    next := ApplyPair(cur, bodies, (i, j), rule);
    ApplyPairAt(cur, bodies, i, j, rule, i);
    ApplyPairAt(cur, bodies, i, j, rule, j);
    forall k | i <= k < |ps| && k != i && k != j ensures next[k] == cur[k] {
      ApplyPairAt(cur, bodies, i, j, rule, k);
    }
  }

  /** Accumulating row i up to j + 1 is accumulating it up to j, then pair (i, j). */
  lemma RowStep(acc: seq<Vec>, bodies: seq<Body>, i: nat, j: nat, rule: PairRule)
    requires i < j
    ensures Accumulate(acc, bodies, Row(i, j + 1), rule)
         == ApplyPair(Accumulate(acc, bodies, Row(i, j), rule), bodies, (i, j), rule)
  {
    assert Row(i, j + 1) == Row(i, j) + [(i, j)];
    AccumulateStep(acc, bodies, Row(i, j), (i, j), rule);
  }

  /** One pair's exchange, as the two compound assignments of the flocking pass. */
  method ExchangeAccelerations(p1: Particle, p2: Particle, e: Exchange)
    requires p1 != p2
    modifies p1`acceleration, p2`acceleration
    ensures p1.acceleration == FirstAfter(old(p1.acceleration), e)
    ensures p2.acceleration == SecondAfter(old(p2.acceleration), e)
  {
    match e
    case Untouched =>
    case Apart(d) =>
      p1.acceleration := p1.acceleration.Plus(d);
      p2.acceleration := p2.acceleration.Minus(d);
    case Together(d) =>
      p1.acceleration := p1.acceleration.Minus(d);
      p2.acceleration := p2.acceleration.Plus(d);
    case Along(f1, f2) =>
      p1.acceleration := p1.acceleration.Plus(f1);
      p2.acceleration := p2.acceleration.Plus(f2);
  }

  /**
   * The particle loop of updateParticles: particle i first runs its row of
   * the flocking pass (when the group flocks this frame), then its own
   * update, so it moves with every pair it belongs to already counted.
   */
  method StepGroup(ps: seq<Particle>, flocked: bool, ratio: real, cfg: FlockConfig,
                   now: real, delta: real, prm: Tuning, surface: Option<Surface>, m: VecMath)
    returns (done: bool)
    requires Distinct(ps)
    requires surface.Some? ==> surface.value.Valid()
    modifies ps`position, ps`direction, ps`velocity, ps`acceleration
    ensures done == flocked
    ensures KinsOf(ps) == GroupStep(old(KinsOf(ps)), if flocked then Some(ratio) else None, cfg, delta, prm, surface, m)
  {
    done := flocked;
    ghost var ks := KinsOf(ps);
    ghost var target := GroupStep(ks, if flocked then Some(ratio) else None, cfg, delta, prm, surface, m);
    var rule := Rule(cfg, ratio, m);
    var n := |ps|;
    var itr := 0;
    ghost var cur := Accelerations(ks);
    while itr < n
      invariant 0 <= itr <= n && |cur| == n
      invariant cur == Pending(ks, flocked, rule, itr)
      invariant Midway(ps, ks, cur, target, itr)
    {
      cur := StepTurn(ps, itr, flocked, ratio, cfg, rule, now, delta, prm, surface, m, ks, cur, target);
      itr := itr + 1;
    }
    KinsOfEach(ps, ks, cur, target);
  }

  /**
   * The accelerations of a group once its first i rows of pairs have acted
   * (all of them unchanged when the group does not flock).
   */
  ghost function Pending(ks: seq<Kinematics>, flocked: bool, rule: PairRule, i: nat): (acc: seq<Vec>)
    ensures |acc| == |ks|
  {
    if flocked then Accumulate(Accelerations(ks), Bodies(ks), Rows(i, |ks|), rule) else Accelerations(ks)
  }

  /**
   * The particle loop at turn i: the particles below i hold their target
   * state, the others their state at the start with the accelerations `cur`.
   */
  ghost predicate Midway(ps: seq<Particle>, ks: seq<Kinematics>, cur: seq<Vec>, target: seq<Kinematics>, i: nat)
    reads set p | p in ps
  {
    && i <= |ps| == |ks| == |cur| == |target|
    && (forall k :: i <= k < |ps| ==> ps[k].Kin() == ks[k].(acceleration := cur[k]))
    && (forall k :: 0 <= k < i ==> ps[k].Kin() == target[k])
  }

  /** A list whose every particle holds its target state holds the target. */
  lemma KinsOfEach(ps: seq<Particle>, ks: seq<Kinematics>, cur: seq<Vec>, target: seq<Kinematics>)
    requires Midway(ps, ks, cur, target, |ps|)
    ensures KinsOf(ps) == target
  {
  }

  /**
   * Turn i of the particle loop against the whole group's outcome: before it
   * the particles below i have their final state and the others hold the
   * accelerations of rows 0 .. i-1; after it, the same for i + 1.
   */
  method StepTurn(ps: seq<Particle>, i: nat, flocked: bool, ratio: real, cfg: FlockConfig, rule: PairRule,
                  now: real, delta: real, prm: Tuning, surface: Option<Surface>, m: VecMath,
                  ghost ks: seq<Kinematics>, ghost cur: seq<Vec>, ghost target: seq<Kinematics>) returns (ghost next: seq<Vec>)
    requires Distinct(ps) && i < |ps|
    requires surface.Some? ==> surface.value.Valid()
    requires flocked ==> rule == Rule(cfg, ratio, m)
    requires target == GroupStep(ks, if flocked then Some(ratio) else None, cfg, delta, prm, surface, m)
    requires cur == Pending(ks, flocked, rule, i)
    requires Midway(ps, ks, cur, target, i)
    modifies ps`position, ps`direction, ps`velocity, ps`acceleration
    ensures next == Pending(ks, flocked, rule, i + 1)
    ensures Midway(ps, ks, next, target, i + 1)
  {
    var n := |ps|;
    ghost var bodies, acc0 := Bodies(ks), Accelerations(ks);
    next := StepOne(ps, i, flocked, rule, now, delta, prm, surface, m, bodies, cur);
    if flocked {
      AccumulateAppend(acc0, bodies, Rows(i, n), Row(i, n), rule);
      RowsSettle(acc0, bodies, n, n, i, rule);
    }
    GroupStepAt(ks, if flocked then Some(ratio) else None, cfg, delta, prm, surface, m, i);
  }

  /** One turn of the particle loop: particle i's row of pairs, if the group flocks, then its update. */
  method StepOne(ps: seq<Particle>, i: nat, flocked: bool, rule: PairRule,
                 now: real, delta: real, prm: Tuning, surface: Option<Surface>, m: VecMath,
                 ghost bodies: seq<Body>, ghost cur: seq<Vec>) returns (ghost next: seq<Vec>)
    requires Distinct(ps) && i < |ps| && |bodies| == |cur| == |ps|
    requires surface.Some? ==> surface.value.Valid()
    requires forall k :: i <= k < |ps| ==> BodyOf(ps[k].Kin()) == bodies[k] && ps[k].acceleration == cur[k]
    modifies ps`position, ps`direction, ps`velocity, ps`acceleration
    ensures flocked ==> next == Accumulate(cur, bodies, Row(i, |ps|), rule)
    ensures !flocked ==> next == cur
    ensures |next| == |ps|
    ensures forall k :: 0 <= k < i ==> ps[k].Kin() == old(ps[k].Kin())
    ensures forall k :: i < k < |ps| ==> ps[k].Kin() == old(ps[k].Kin()).(acceleration := next[k])
    ensures ps[i].Kin() == Step(old(ps[i].Kin()).(acceleration := next[i]), delta, prm, surface, m)
  {
    next := cur;
    if flocked {
      next := FlockRow(ps, i, rule, bodies, cur);
    }
    ghost var mid := ps[i].Kin();
    assert mid == old(ps[i].Kin()).(acceleration := next[i]);
    UpdateOne(ps, i, now, delta, prm, surface, m);
  }

  /** Particle i's update() inside its group: the other particles keep their state. */
  method UpdateOne(ps: seq<Particle>, i: nat, now: real, delta: real, prm: Tuning, surface: Option<Surface>, m: VecMath)
    requires Distinct(ps) && i < |ps|
    requires surface.Some? ==> surface.value.Valid()
    modifies ps`position, ps`direction, ps`velocity, ps`acceleration
    ensures ps[i].Kin() == Step(old(ps[i].Kin()), delta, prm, surface, m)
    ensures forall k :: 0 <= k < |ps| && k != i ==> ps[k].Kin() == old(ps[k].Kin())
  {
    ps[i].Update(now, delta, prm, surface, m);
  }

  class ParticleEmitter {
    var particles: seq<seq<Particle>>
    var position: Vec
    var zoneRadiusSqrd: real
    var repelStrength: real
    var alignStrength: real
    var attractStrength: real
    var lowThresh: real
    var highThresh: real
    var currentTime: real
    var delta: real
    var updateFlockTimer: real
    var lastFlockUpdateTime: real
    var particlesPerGroup: int
    var particleGroups: int

    function Flock(): FlockConfig
      reads this`zoneRadiusSqrd, this`repelStrength, this`alignStrength, this`attractStrength, this`lowThresh, this`highThresh
    {
      FlockConfig(zoneRadiusSqrd, repelStrength, alignStrength, attractStrength, lowThresh, highThresh)
    }

    ghost function Objects(): set<Particle>
      reads this`particles
    {
      set g, k | 0 <= g < |particles| && 0 <= k < |particles[g]| :: particles[g][k]
    }

    /** Every particle is tagged with its group, carries drawn speed limits, and appears once in its group. */
    ghost predicate WellFormed()
      reads this`particles, Objects()`group, Objects()`maxSpeedSquared, Objects()`minSpeedSquared
    {
      && (forall g, k :: 0 <= g < |particles| && 0 <= k < |particles[g]| ==>
            particles[g][k].group == g && Drawn(particles[g][k]))
      && (forall g :: 0 <= g < |particles| ==> Distinct(particles[g]))
    }

    /** The group counters describe the groups: that many groups, each that long. */
    ghost predicate Valid()
      reads this`particles, this`particleGroups, this`particlesPerGroup
      reads Objects()`group, Objects()`maxSpeedSquared, Objects()`minSpeedSquared
    {
      && WellFormed()
      && particleGroups == |particles|
      && particlesPerGroup >= 0
      && forall g :: 0 <= g < |particles| ==> |particles[g]| == particlesPerGroup
    }

    /** An emitter with no particles, the default flocking parameters and no pass yet. */
    constructor ()
      ensures Valid() && particles == [] && particleGroups == 0 && particlesPerGroup == 0
      ensures Flock() == DefaultFlock && position == Zero
      ensures currentTime == 0.0 && delta == 0.0
      ensures updateFlockTimer == 0.0 && lastFlockUpdateTime == 0.0
    {
      particles := [];
      position := Zero;
      zoneRadiusSqrd := 75.0 * 75.0;
      repelStrength := 0.04;
      alignStrength := 0.04;
      attractStrength := 0.02;
      lowThresh := 0.125;
      highThresh := 0.65;
      currentTime := 0.0;
      delta := 0.0;
      updateFlockTimer := 0.0;
      lastFlockUpdateTime := 0.0;
      particlesPerGroup := 0;
      particleGroups := 0;
    }

    /**
     * addParticles: create groups up to `group`, then append `amount` new
     * particles to it, placed in a random emission area on the reference
     * surface and heading near a random angle. The emission area is sized
     * from the reference surface before the code tests whether there is one,
     * so a call without a surface is not defined.
     */
    method AddParticles(amount: nat, group: nat, surface: Option<Surface>, d: SpawnDraws, m: VecMath)
      requires WellFormed() && surface.Some? && d.Fits(amount, surface)
      modifies this`particles
      ensures WellFormed()
      ensures |particles| == if group < |old(particles)| then |old(particles)| else group + 1
      ensures forall g :: 0 <= g < |particles| && g != group ==>
        particles[g] == if g < |old(particles)| then old(particles)[g] else []
      ensures var before := if group < |old(particles)| then old(particles)[group] else [];
        && |particles[group]| == |before| + amount
        && particles[group][..|before|] == before
        && forall k :: |before| <= k < |particles[group]| ==>
             fresh(particles[group][k]) && Spawned(particles[group][k], group, d, k - |before|, position, surface, m)
      ensures forall k :: (if group < |old(particles)| then |old(particles)[group]| else 0) <= k < |particles[group]| ==>
        Newborn(particles[group][k].Kin(), position, surface, m)
    {
      AddGroups(group);
      ghost var before := particles[group];
      ghost var start := particles;
      var i := 0;
      while i < amount
        invariant 0 <= i <= amount
        invariant WellFormed()
        invariant |particles| == |start|
        invariant forall g :: 0 <= g < |particles| && g != group ==> particles[g] == start[g]
        invariant |particles[group]| == |before| + i && particles[group][..|before|] == before
        invariant forall k :: |before| <= k < |particles[group]| ==>
          fresh(particles[group][k]) && Spawned(particles[group][k], group, d, k - |before|, position, surface, m)
      {
        var p := Emit(group, d, i, surface, m);
        i := i + 1;
      }
      forall k | |before| <= k < |particles[group]|
        ensures Newborn(particles[group][k].Kin(), position, surface, m)
      {
        SpawnedNewborn(particles[group][k], group, d, k - |before|, position, surface, m);
      }
    }

    /** One particle of addParticles' second loop: created, then appended to its group. */
    method Emit(group: nat, d: SpawnDraws, i: nat, surface: Option<Surface>, m: VecMath) returns (p: Particle)
      requires WellFormed() && group < |particles| && i < |d.each| && d.Fits(|d.each|, surface)
      modifies this`particles
      ensures WellFormed()
      ensures fresh(p) && Spawned(p, group, d, i, position, surface, m)
      ensures particles == old(particles)[group := old(particles)[group] + [p]]
    {
      assert d.Fit(d.each[i], surface);
      p := Spawn(group, d, i, position, surface, m);
      Append(group, p);
    }

    /** The first loop of addParticles: empty groups until `group` exists. */
    method AddGroups(group: nat)
      requires WellFormed()
      modifies this`particles
      ensures WellFormed()
      ensures |particles| == if group < |old(particles)| then |old(particles)| else group + 1
      ensures forall g :: 0 <= g < |particles| ==> particles[g] == if g < |old(particles)| then old(particles)[g] else []
    {
      while |particles| <= group
        invariant WellFormed()
        invariant |old(particles)| <= |particles|
        invariant |particles| <= group + 1 || |particles| == |old(particles)|
        invariant forall g :: 0 <= g < |particles| ==> particles[g] == if g < |old(particles)| then old(particles)[g] else []
        decreases group - |particles|
      {
        particles := particles + [[]];
      }
    }

    /** push_back of a new particle onto group g. */
    method Append(g: nat, p: Particle)
      requires WellFormed() && g < |particles|
      requires p !in Objects() && p.group == g && Drawn(p)
      modifies this`particles
      ensures particles == old(particles)[g := old(particles)[g] + [p]]
      ensures WellFormed()
    {
      particles := particles[g := particles[g] + [p]];
      assert forall q :: q in Objects() ==> q in old(Objects()) || q == p;
    }

    /**
     * updateParticles on one group: when the shared flocking timer has
     * reached its period, reset it and run the flocking pass over every
     * pair i < j; each particle then runs its own update, right after its
     * row of pairs.
     */
    method UpdateParticles(now: real, delta: real, ps: seq<Particle>, prm: Tuning, surface: Option<Surface>, m: VecMath)
      returns (flocked: bool)
      requires Distinct(ps)
      requires surface.Some? ==> surface.value.Valid()
      modifies this`updateFlockTimer, this`lastFlockUpdateTime, ps`position, ps`direction, ps`velocity, ps`acceleration
      ensures flocked <==> old(updateFlockTimer) >= UpdateFlockEvery
      ensures flocked ==> updateFlockTimer == 0.0 && lastFlockUpdateTime == now
      ensures !flocked ==> updateFlockTimer == old(updateFlockTimer) && lastFlockUpdateTime == old(lastFlockUpdateTime)
      ensures KinsOf(ps) == GroupStep(old(KinsOf(ps)),
                                      if flocked then Some(FlockRatio(now, old(lastFlockUpdateTime))) else None,
                                      Flock(), delta, prm, surface, m)
      ensures forall k :: 0 <= k < |ps| ==> ps[k].Fixed() == old(ps[k].Fixed())
    {
      ghost var ks := KinsOf(ps);
      var updateRatio := 0.0;
      flocked := false;
      if updateFlockTimer >= UpdateFlockEvery {
        updateFlockTimer := 0.0;
        updateRatio := (now - lastFlockUpdateTime) / UpdateFlockEvery;
        lastFlockUpdateTime := now;
        flocked := true;
      }
      assert KinsOf(ps) == ks;
      flocked := StepGroup(ps, flocked, updateRatio, Flock(), now, delta, prm, surface, m);
    }

    /** The kinematic state of every group. */
    ghost function Kins(): (r: seq<seq<Kinematics>>)
      reads this, Objects()
      ensures |r| == |particles| && forall g :: 0 <= g < |particles| ==> r[g] == KinsOf(particles[g])
    {
      seq(|particles|, g requires 0 <= g < |particles| reads this, Objects() => KinsOf(particles[g]))
    }

    /** Particles are tagged with their group and unique within it, so no particle is in two places. */
    lemma WellFormedDisjoint()
      requires WellFormed()
      ensures Disjoint(particles)
    {
      forall g, h, a, b | 0 <= g < |particles| && 0 <= h < |particles| && 0 <= a < |particles[g]| && 0 <= b < |particles[h]| && (g != h || a != b)
        ensures particles[g][a] != particles[h][b]
      {
        if g == h {
          assert Distinct(particles[g]);
        }
      }
    }

    /**
     * Group g's turn: updateParticles on it. Only the first group can find
     * the flocking timer due: once it has run, the timer is either reset or
     * was not due to begin with.
     */
    method RunGroup(g: nat, prm: Tuning, surface: Option<Surface>, m: VecMath,
                    ghost timer0: real, ghost last0: real, ghost now: real, ghost dt: real, ghost cfg: FlockConfig,
                    ghost start: seq<seq<Kinematics>>, ghost target: seq<seq<Kinematics>>)
      requires Disjoint(particles) && g < |particles| && g < |start| == |target| && |target[g]| == |particles[g]|
      requires surface.Some? ==> surface.value.Valid()
      requires g > 0 && timer0 >= UpdateFlockEvery ==> updateFlockTimer == 0.0 && lastFlockUpdateTime == now
      requires !(g > 0 && timer0 >= UpdateFlockEvery) ==> updateFlockTimer == timer0 && lastFlockUpdateTime == last0
      requires currentTime == now && delta == dt && Flock() == cfg
      requires Planned(start, target, timer0, last0, now, cfg, dt, prm, surface, m)
      requires KinsOf(particles[g]) == start[g]
      modifies this`updateFlockTimer, this`lastFlockUpdateTime
      modifies particles[g]`position, particles[g]`direction, particles[g]`velocity, particles[g]`acceleration
      ensures forall k :: 0 <= k < |particles[g]| ==> particles[g][k].Kin() == target[g][k]
      ensures forall h, k :: 0 <= h < |particles| && h != g && 0 <= k < |particles[h]| ==>
        particles[h][k].Kin() == old(particles[h][k].Kin())
      ensures timer0 >= UpdateFlockEvery ==> updateFlockTimer == 0.0 && lastFlockUpdateTime == now
      ensures timer0 < UpdateFlockEvery ==> updateFlockTimer == timer0 && lastFlockUpdateTime == last0
    {
      assert Distinct(particles[g]);
      forall h, k | 0 <= h < |particles| && h != g && 0 <= k < |particles[h]|
        ensures particles[h][k] !in particles[g]
      {
        assert forall j :: 0 <= j < |particles[g]| ==> particles[g][j] != particles[h][k];
      }
      assert target[g] == GroupStep(start[g], GroupFlock(g, timer0, last0, now), cfg, dt, prm, surface, m);
      var flocked := UpdateParticles(currentTime, delta, particles[g], prm, surface, m);
    }

    /** Worker t's turn at group g: the groups of the earlier workers and its own groups below g are done. */
    method WorkerTurn(g: nat, t: nat, prm: Tuning, surface: Option<Surface>, m: VecMath,
                      ghost timer0: real, ghost last0: real, ghost now: real, ghost dt: real, ghost cfg: FlockConfig,
                    ghost start: seq<seq<Kinematics>>, ghost target: seq<seq<Kinematics>>)
      requires Disjoint(particles) && g < |particles| && g % Threads == t && |start| == |target| == |particles|
      requires forall h :: 0 <= h < |particles| ==> |start[h]| == |target[h]| == |particles[h]|
      requires surface.Some? ==> surface.value.Valid()
      requires currentTime == now && delta == dt && Flock() == cfg
      requires Planned(start, target, timer0, last0, now, cfg, dt, prm, surface, m)
      requires forall h, k :: 0 <= h < |particles| && 0 <= k < |particles[h]| ==>
        particles[h][k].Kin() == if Ran(h, t, g) then target[h][k] else start[h][k]
      requires g > 0 && timer0 >= UpdateFlockEvery ==> updateFlockTimer == 0.0 && lastFlockUpdateTime == now
      requires !(g > 0 && timer0 >= UpdateFlockEvery) ==> updateFlockTimer == timer0 && lastFlockUpdateTime == last0
      modifies this`updateFlockTimer, this`lastFlockUpdateTime
      modifies particles[g]`position, particles[g]`direction, particles[g]`velocity, particles[g]`acceleration
      ensures forall h, k :: 0 <= h < |particles| && 0 <= k < |particles[h]| ==>
        particles[h][k].Kin() == if Ran(h, t, g + Threads) then target[h][k] else start[h][k]
      ensures timer0 >= UpdateFlockEvery ==> updateFlockTimer == 0.0 && lastFlockUpdateTime == now
      ensures timer0 < UpdateFlockEvery ==> updateFlockTimer == timer0 && lastFlockUpdateTime == last0
    {
      assert KinsOf(particles[g]) == start[g];
      RunGroup(g, prm, surface, m, timer0, last0, now, dt, cfg, start, target);
      forall h, k | 0 <= h < |particles| && 0 <= k < |particles[h]|
        ensures particles[h][k].Kin() == if Ran(h, t, g + Threads) then target[h][k] else start[h][k]
      {
        if h != g && h % Threads == t && g < h {
          ResidueGap(g, h);
        }
      }
    }

    /**
     * Worker t of threadProcessParticles: groups t, t + Threads,
     * t + 2 * Threads, ... in increasing order.
     */
    method RunWorker(t: nat, prm: Tuning, surface: Option<Surface>, m: VecMath,
                     ghost timer0: real, ghost last0: real, ghost now: real, ghost dt: real, ghost cfg: FlockConfig,
                    ghost start: seq<seq<Kinematics>>, ghost target: seq<seq<Kinematics>>)
      returns (ran: seq<nat>)
      requires t < Threads && Disjoint(particles) && |start| == |target| == |particles|
      requires forall g :: 0 <= g < |particles| ==> |start[g]| == |target[g]| == |particles[g]|
      requires surface.Some? ==> surface.value.Valid()
      requires currentTime == now && delta == dt && Flock() == cfg
      requires Planned(start, target, timer0, last0, now, cfg, dt, prm, surface, m)
      requires forall g, k :: 0 <= g < |particles| && 0 <= k < |particles[g]| ==>
        particles[g][k].Kin() == if Ran(g, t, 0) then target[g][k] else start[g][k]
      requires t > 0 && |particles| > 0 && timer0 >= UpdateFlockEvery ==> updateFlockTimer == 0.0 && lastFlockUpdateTime == now
      requires !(t > 0 && |particles| > 0 && timer0 >= UpdateFlockEvery) ==> updateFlockTimer == timer0 && lastFlockUpdateTime == last0
      modifies this`updateFlockTimer, this`lastFlockUpdateTime
      modifies Objects()`position, Objects()`direction, Objects()`velocity, Objects()`acceleration
      ensures ran == WorkFrom(t, |particles|)
      ensures forall g, k :: 0 <= g < |particles| && 0 <= k < |particles[g]| ==>
        particles[g][k].Kin() == if Ran(g, t + 1, 0) then target[g][k] else start[g][k]
      ensures |particles| > 0 && timer0 >= UpdateFlockEvery ==> updateFlockTimer == 0.0 && lastFlockUpdateTime == now
      ensures !(|particles| > 0 && timer0 >= UpdateFlockEvery) ==> updateFlockTimer == timer0 && lastFlockUpdateTime == last0
    {
      var n := |particles|;
      ran := [];
      var groupIdx := t;
      while groupIdx < n
        invariant t <= groupIdx && groupIdx % Threads == t
        invariant ran + WorkFrom(groupIdx, n) == WorkFrom(t, n)
        invariant forall g, k :: 0 <= g < n && 0 <= k < |particles[g]| ==>
          particles[g][k].Kin() == if Ran(g, t, groupIdx) then target[g][k] else start[g][k]
        invariant groupIdx > 0 && n > 0 && timer0 >= UpdateFlockEvery ==> updateFlockTimer == 0.0 && lastFlockUpdateTime == now
        invariant !(groupIdx > 0 && n > 0 && timer0 >= UpdateFlockEvery) ==> updateFlockTimer == timer0 && lastFlockUpdateTime == last0
        decreases n - groupIdx
      {
        WorkerTurn(groupIdx, t, prm, surface, m, timer0, last0, now, dt, cfg, start, target);
        ran := ran + [groupIdx];
        ResidueStep(groupIdx);
        groupIdx := groupIdx + Threads;
      }
    }

    /** The workers of a round, one after the other, each on its own groups. */
    method RunRound(prm: Tuning, surface: Option<Surface>, m: VecMath,
                    ghost timer0: real, ghost last0: real, ghost now: real, ghost dt: real, ghost cfg: FlockConfig,
                    ghost start: seq<seq<Kinematics>>, ghost target: seq<seq<Kinematics>>)
      returns (order: seq<nat>)
      requires Disjoint(particles) && |start| == |target| == |particles|
      requires forall g :: 0 <= g < |particles| ==> |start[g]| == |target[g]| == |particles[g]|
      requires surface.Some? ==> surface.value.Valid()
      requires currentTime == now && delta == dt && Flock() == cfg
      requires Planned(start, target, timer0, last0, now, cfg, dt, prm, surface, m)
      requires forall g :: 0 <= g < |particles| ==> KinsOf(particles[g]) == start[g]
      requires updateFlockTimer == timer0 && lastFlockUpdateTime == last0
      modifies this`updateFlockTimer, this`lastFlockUpdateTime
      modifies Objects()`position, Objects()`direction, Objects()`velocity, Objects()`acceleration
      ensures order == WorkOrder(|particles|)
      ensures forall g, k :: 0 <= g < |particles| && 0 <= k < |particles[g]| ==> particles[g][k].Kin() == target[g][k]
      ensures |particles| > 0 && timer0 >= UpdateFlockEvery ==> updateFlockTimer == 0.0 && lastFlockUpdateTime == now
      ensures !(|particles| > 0 && timer0 >= UpdateFlockEvery) ==> updateFlockTimer == timer0 && lastFlockUpdateTime == last0
    {
      var n := |particles|;
      forall g, k | 0 <= g < n && 0 <= k < |particles[g]| ensures particles[g][k].Kin() == start[g][k] {
        assert KinsOf(particles[g])[k] == particles[g][k].Kin();
      }
      order := [];
      var t := 0;
      while t < Threads
        invariant 0 <= t <= Threads
        invariant order == WorkPrefix(t, n)
        invariant forall g, k :: 0 <= g < n && 0 <= k < |particles[g]| ==>
          particles[g][k].Kin() == if Ran(g, t, 0) then target[g][k] else start[g][k]
        invariant t > 0 && n > 0 && timer0 >= UpdateFlockEvery ==> updateFlockTimer == 0.0 && lastFlockUpdateTime == now
        invariant !(t > 0 && n > 0 && timer0 >= UpdateFlockEvery) ==> updateFlockTimer == timer0 && lastFlockUpdateTime == last0
      {
        var ran := RunWorker(t, prm, surface, m, timer0, last0, now, dt, cfg, start, target);
        order := order + ran;
        t := t + 1;
      }
    }

    /**
     * One round of the workers, run one after the other: worker t updates
     * groups t, t + Threads, t + 2 * Threads, ...
     */
    method ProcessGroups(prm: Tuning, surface: Option<Surface>, m: VecMath) returns (order: seq<nat>)
      requires Valid()
      requires surface.Some? ==> surface.value.Valid()
      modifies this`updateFlockTimer, this`lastFlockUpdateTime
      modifies Objects()`position, Objects()`direction, Objects()`velocity, Objects()`acceleration
      ensures Valid()
      ensures order == WorkOrder(|particles|)
      ensures forall g :: 0 <= g < |particles| ==>
        KinsOf(particles[g]) == GroupStep(old(Kins())[g],
                                          GroupFlock(g, old(updateFlockTimer), old(lastFlockUpdateTime), currentTime),
                                          Flock(), delta, prm, surface, m)
      ensures |particles| > 0 && old(updateFlockTimer) >= UpdateFlockEvery ==>
        updateFlockTimer == 0.0 && lastFlockUpdateTime == currentTime
      ensures !(|particles| > 0 && old(updateFlockTimer) >= UpdateFlockEvery) ==>
        updateFlockTimer == old(updateFlockTimer) && lastFlockUpdateTime == old(lastFlockUpdateTime)
    {
      var n := |particles|;
      WellFormedDisjoint();
      ghost var timer0, last0 := updateFlockTimer, lastFlockUpdateTime;
      ghost var start := Kins();
      ghost var now, dt, cfg := currentTime, delta, Flock();
      ghost var target := MakePlan(start, timer0, last0, now, cfg, dt, prm, surface, m);
      order := RunRound(prm, surface, m, timer0, last0, now, dt, cfg, start, target);
      RoundDone(particles, target);
    }
    /** Every slot of ks that is not a slot of before holds a new particle's kinematics. */
    ghost predicate NewbornSlots(before: seq<seq<Particle>>, ks: seq<seq<Kinematics>>, origin: Vec, surface: Option<Surface>, m: VecMath)
    {
      forall g, k :: 0 <= g < |ks| && 0 <= k < |ks[g]| && NewSlot(before, g, k) ==> Newborn(ks[g][k], origin, surface, m)
    }

    /** A slot of a later list that is not a slot of an earlier one. */
    ghost predicate NewSlot(before: seq<seq<Particle>>, g: nat, k: nat)
    {
      g >= |before| || k >= |before[g]|
    }

    /**
     * The groups stage of update: add groups (each with the current number
     * of particles per group) or drop the last ones, until there are
     * `target` groups.
     */
    method AdjustGroups(target: nat, surface: Option<Surface>, m: VecMath)
      requires Valid()
      requires surface.Some? ==> surface.value.Valid()
      requires target > particleGroups ==> surface.Some?
      modifies this`particles, this`particleGroups
      ensures Valid() && particleGroups == target
      ensures Kept(old(particles), particles)
      ensures forall g, k :: 0 <= g < |particles| && 0 <= k < |particles[g]| && NewSlot(old(particles), g, k) ==>
        fresh(particles[g][k]) && Newborn(particles[g][k].Kin(), position, surface, m)
    {
      if particleGroups < target {
        var groupsToCreate := target - particleGroups;
        var i := 0;
        while i < groupsToCreate
          invariant 0 <= i <= groupsToCreate && WellFormed()
          invariant particleGroups == old(particleGroups) == |old(particles)|
          invariant |particles| == particleGroups + i
          invariant forall g :: 0 <= g < |particles| ==> |particles[g]| == particlesPerGroup
          invariant forall g :: 0 <= g < |old(particles)| ==> particles[g] == old(particles)[g]
          invariant forall g, k :: |old(particles)| <= g < |particles| && 0 <= k < |particles[g]| ==>
            fresh(particles[g][k]) && Newborn(particles[g][k].Kin(), position, surface, m)
        {
          DrawsExist(particlesPerGroup, surface);
          var d: SpawnDraws :| d.Fits(particlesPerGroup, surface);
          AddParticles(particlesPerGroup, particleGroups + i, surface, d, m);
          i := i + 1;
        }
        particleGroups := particleGroups + groupsToCreate;
      } else if particleGroups > target {
        var groupsToRemove := particleGroups - target;
        var i := 0;
        while i < groupsToRemove
          invariant 0 <= i <= groupsToRemove && WellFormed()
          invariant particleGroups == old(particleGroups) == |old(particles)|
          invariant |particles| == particleGroups - i
          invariant forall g :: 0 <= g < |particles| ==> particles[g] == old(particles)[g]
        {
          PopGroup();
          i := i + 1;
        }
        particleGroups := target;
      }
    }

    /** pop_back of the last group. */
    method PopGroup()
      requires WellFormed() && |particles| > 0
      modifies this`particles
      ensures particles == old(particles)[..|old(particles)| - 1]
      ensures WellFormed()
    {
      particles := particles[..|particles| - 1];
      assert forall q :: q in Objects() ==> q in old(Objects());
    }

    /**
     * The particles-per-group stage of update: every group grows by at most
     * two particles toward `target`, or all drop their last particles down
     * to it at once.
     */
    method AdjustGroupSize(target: nat, surface: Option<Surface>, m: VecMath)
      requires Valid()
      requires surface.Some? ==> surface.value.Valid()
      requires target > particlesPerGroup && |particles| > 0 ==> surface.Some?
      modifies this`particles, this`particlesPerGroup
      ensures Valid() && particlesPerGroup == NextPerGroup(old(particlesPerGroup), target)
      ensures |particles| == |old(particles)| && Kept(old(particles), particles)
      ensures forall g, k :: 0 <= g < |particles| && 0 <= k < |particles[g]| && NewSlot(old(particles), g, k) ==>
        fresh(particles[g][k]) && Newborn(particles[g][k].Kin(), position, surface, m)
    {
      if target > particlesPerGroup {
        var particlesToEmit := Min(2, target - particlesPerGroup);
        GrowGroups(particlesToEmit, surface, m);
        particlesPerGroup := particlesPerGroup + particlesToEmit;
      } else if particlesPerGroup > target {
        ShrinkGroups(target);
        particlesPerGroup := target;
      }
    }

    /** The growing branch: addParticles(amount, idx) on every group in turn. */
    method GrowGroups(amount: nat, surface: Option<Surface>, m: VecMath)
      requires Valid()
      requires surface.Some? ==> surface.value.Valid()
      requires |particles| > 0 ==> surface.Some?
      modifies this`particles
      ensures WellFormed() && |particles| == |old(particles)| && Kept(old(particles), particles)
      ensures forall g :: 0 <= g < |particles| ==> |particles[g]| == particlesPerGroup + amount
      ensures forall g, k :: 0 <= g < |particles| && 0 <= k < |particles[g]| && NewSlot(old(particles), g, k) ==>
        fresh(particles[g][k]) && Newborn(particles[g][k].Kin(), position, surface, m)
    {
      var idx := 0;
      while idx < |particles|
        invariant 0 <= idx <= |particles| == |old(particles)| && WellFormed()
        invariant forall g :: 0 <= g < idx ==> |particles[g]| == particlesPerGroup + amount
        invariant forall g :: idx <= g < |particles| ==> particles[g] == old(particles)[g]
        invariant Kept(old(particles), particles)
        invariant forall g, k :: 0 <= g < |particles| && 0 <= k < |particles[g]| && NewSlot(old(particles), g, k) ==>
          fresh(particles[g][k]) && Newborn(particles[g][k].Kin(), position, surface, m)
      {
        DrawsExist(amount, surface);
        var d: SpawnDraws :| d.Fits(amount, surface);
        AddParticles(amount, idx, surface, d, m);
        idx := idx + 1;
      }
    }

    /** The shrinking branch: every group drops its last particles down to `target`. */
    method ShrinkGroups(target: nat)
      requires Valid() && target < particlesPerGroup
      modifies this`particles
      ensures WellFormed() && |particles| == |old(particles)|
      ensures forall g :: 0 <= g < |particles| ==> particles[g] == old(particles)[g][..target]
    {
      var idx := 0;
      while idx < |particles|
        invariant 0 <= idx <= |particles| == |old(particles)| && WellFormed()
        invariant forall g :: 0 <= g < idx ==> particles[g] == old(particles)[g][..target]
        invariant forall g :: idx <= g < |particles| ==> particles[g] == old(particles)[g]
      {
        ShrinkGroup(idx, particlesPerGroup - target);
        idx := idx + 1;
      }
    }

    /** The inner loop of the shrinking branch: `count` pop_backs on group g. */
    method ShrinkGroup(g: nat, count: nat)
      requires WellFormed() && g < |particles| && count <= |particles[g]|
      modifies this`particles
      ensures WellFormed()
      ensures particles == old(particles)[g := old(particles)[g][..|old(particles)[g]| - count]]
    {
      ghost var group := particles[g];
      var i := 0;
      assert group[..|group|] == group;
      while i < count
        invariant 0 <= i <= count && WellFormed()
        invariant particles == old(particles)[g := group[..|group| - i]]
      {
        PopParticle(g);
        assert group[..|group| - i][..|group| - i - 1] == group[..|group| - (i + 1)];
        i := i + 1;
      }
    }

    /** pop_back of the last particle of group g. */
    method PopParticle(g: nat)
      requires WellFormed() && g < |particles| && |particles[g]| > 0
      modifies this`particles
      ensures particles == old(particles)[g := old(particles)[g][..|old(particles)[g]| - 1]]
      ensures WellFormed()
    {
      particles := particles[g := particles[g][..|particles[g]| - 1]];
      assert forall q :: q in Objects() ==> q in old(Objects());
    }

    /** The two population stages of update: first the groups, then the particles per group. */
    method AdjustPopulation(targetGroups: nat, targetPerGroup: nat, surface: Option<Surface>, m: VecMath)
      requires Valid()
      requires surface.Some? ==> surface.value.Valid()
      requires surface.None? ==> targetGroups <= particleGroups && (targetPerGroup <= particlesPerGroup || targetGroups == 0)
      modifies this`particles, this`particleGroups, this`particlesPerGroup
      ensures Valid() && particleGroups == targetGroups
      ensures particlesPerGroup == NextPerGroup(old(particlesPerGroup), targetPerGroup)
      ensures Kept(old(particles), particles)
      ensures forall g, k :: 0 <= g < |particles| && 0 <= k < |particles[g]| && NewSlot(old(particles), g, k) ==>
        fresh(particles[g][k]) && Newborn(particles[g][k].Kin(), position, surface, m)
      ensures forall g, k :: 0 <= g < |particles| && 0 <= k < |particles[g]| && !NewSlot(old(particles), g, k) ==>
        particles[g][k].Kin() == old(particles[g][k].Kin())
    {
      AdjustGroups(targetGroups, surface, m);
      ghost var mid := particles;
      AdjustGroupSize(targetPerGroup, surface, m);
      forall g, k | 0 <= g < |particles| && 0 <= k < |particles[g]| && !NewSlot(old(particles), g, k)
        ensures particles[g][k] == old(particles)[g][k]
      {
        assert mid[g][k] == old(particles)[g][k];
      }
    }

    /** The timer bookkeeping of update, with the first frame's priming. */
    method AdvanceTimers(now: real, dt: real)
      modifies this`updateFlockTimer, this`lastFlockUpdateTime, this`currentTime, this`delta
      ensures (updateFlockTimer, lastFlockUpdateTime) == Timers(old(updateFlockTimer), old(lastFlockUpdateTime), now, dt)
      ensures currentTime == now && delta == dt
    {
      updateFlockTimer := updateFlockTimer + dt;
      currentTime := now;
      delta := dt;
      if lastFlockUpdateTime == 0.0 {
        lastFlockUpdateTime := currentTime - UpdateFlockEvery;
        updateFlockTimer := UpdateFlockEvery;
      }
    }

    /**
     * The part of update before the workers run: population control, then
     * the timer bookkeeping. Returns the kinematics the workers start from.
     */
    method Populate(now: real, dt: real, targetGroups: nat, targetPerGroup: nat, surface: Option<Surface>, m: VecMath)
      returns (ghost adjusted: seq<seq<Kinematics>>)
      requires Valid()
      requires surface.Some? ==> surface.value.Valid()
      requires surface.None? ==> targetGroups <= particleGroups && (targetPerGroup <= particlesPerGroup || targetGroups == 0)
      modifies this`particles, this`particleGroups, this`particlesPerGroup
      modifies this`updateFlockTimer, this`lastFlockUpdateTime, this`currentTime, this`delta
      ensures Valid() && particleGroups == targetGroups
      ensures particlesPerGroup == NextPerGroup(old(particlesPerGroup), targetPerGroup)
      ensures currentTime == now && delta == dt
      ensures (updateFlockTimer, lastFlockUpdateTime) == Timers(old(updateFlockTimer), old(lastFlockUpdateTime), now, dt)
      ensures Kept(old(particles), particles)
      ensures adjusted == Kins()
      ensures forall g, k :: 0 <= g < |particles| && 0 <= k < |particles[g]| && NewSlot(old(particles), g, k) ==>
        fresh(particles[g][k])
      ensures NewbornSlots(old(particles), adjusted, position, surface, m)
      ensures forall g, k :: 0 <= g < |particles| && 0 <= k < |particles[g]| && !NewSlot(old(particles), g, k) ==>
        adjusted[g][k] == old(particles[g][k].Kin())
    {
      AdjustPopulation(targetGroups, targetPerGroup, surface, m);
      AdvanceTimers(now, dt);
      adjusted := Kins();
      assert NewbornSlots(old(particles), adjusted, position, surface, m);
    }

    /**
     * update: bring the population one step toward the wanted number of
     * groups and particles per group, advance the flocking timer (priming it
     * on the first frame), then, when there is any group, run one round of
     * the workers.
     */
    method Update(now: real, dt: real, targetGroups: nat, targetPerGroup: nat,
                  prm: Tuning, surface: Option<Surface>, m: VecMath)
      returns (order: seq<nat>, ghost adjusted: seq<seq<Kinematics>>)
      requires Valid()
      requires surface.Some? ==> surface.value.Valid()
      requires surface.None? ==> targetGroups <= particleGroups && (targetPerGroup <= particlesPerGroup || targetGroups == 0)
      modifies this`particles, this`particleGroups, this`particlesPerGroup
      modifies this`updateFlockTimer, this`lastFlockUpdateTime, this`currentTime, this`delta
      modifies Objects()`position, Objects()`direction, Objects()`velocity, Objects()`acceleration
      ensures Valid() && particleGroups == targetGroups
      ensures particlesPerGroup == NextPerGroup(old(particlesPerGroup), targetPerGroup)
      ensures currentTime == now && delta == dt
      ensures Kept(old(particles), particles)
      ensures |adjusted| == |particles| && forall g :: 0 <= g < |particles| ==> |adjusted[g]| == |particles[g]|
      ensures forall g, k :: 0 <= g < |particles| && 0 <= k < |particles[g]| && NewSlot(old(particles), g, k) ==>
        fresh(particles[g][k])
      ensures NewbornSlots(old(particles), adjusted, position, surface, m)
      ensures forall g, k :: 0 <= g < |particles| && 0 <= k < |particles[g]| && !NewSlot(old(particles), g, k) ==>
        adjusted[g][k] == old(particles[g][k].Kin())
      ensures var (timer, last) := Timers(old(updateFlockTimer), old(lastFlockUpdateTime), now, dt);
        && (forall g :: 0 <= g < |particles| ==>
              KinsOf(particles[g]) == GroupStep(adjusted[g], GroupFlock(g, timer, last, now), Flock(), dt, prm, surface, m))
        && (|particles| > 0 && timer >= UpdateFlockEvery ==> updateFlockTimer == 0.0 && lastFlockUpdateTime == now)
        && (!(|particles| > 0 && timer >= UpdateFlockEvery) ==> updateFlockTimer == timer && lastFlockUpdateTime == last)
      ensures order == if |particles| == 0 then [] else WorkOrder(|particles|)
    {
      adjusted := Populate(now, dt, targetGroups, targetPerGroup, surface, m);
      if |particles| == 0 {
        order := [];
        return;
      }
      order := ProcessGroups(prm, surface, m);
    }
  }
}
