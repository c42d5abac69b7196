/**
 * The flocking pass of a particle group, as values: the force a pair of
 * particles exchanges (separation, alignment or cohesion by distance band),
 * the order in which the pass visits the pairs (every i < j once, row by
 * row), and the accelerations the pass accumulates before each particle's
 * own update.
 */
module Flocking {
  import opened Vectors
  import opened Options
  import opened Particles

  /** The emitter's flocking parameters. */
  datatype FlockConfig = FlockConfig(
    zoneRadiusSqrd: real,
    repelStrength: real,
    alignStrength: real,
    attractStrength: real,
    lowThresh: real,
    highThresh: real)

  /** The emitter's initial flocking parameters. */
  const DefaultFlock := FlockConfig(75.0 * 75.0, 0.04, 0.04, 0.02, 0.125, 0.65)

  /** A band whose strength is below this is skipped. */
  const MinStrength: real := 0.0001

  /** What the pass reads of a particle: where it is and where it heads. */
  datatype Body = Body(position: Vec, direction: Vec)

  function BodyOf(k: Kinematics): Body { Body(k.position, k.direction) }

  datatype Band = Separation | Alignment | Cohesion

  /** The band of a neighbour at `percent` of the squared zone radius. */
  function BandOf(percent: real, cfg: FlockConfig): Band
  {
    if percent < cfg.lowThresh then Separation
    else if percent < cfg.highThresh then Alignment
    else Cohesion
  }

  /** The strength parameter of a band. */
  function Strength(b: Band, cfg: FlockConfig): real
  {
    match b
    case Separation => cfg.repelStrength
    case Alignment => cfg.alignStrength
    case Cohesion => cfg.attractStrength
  }

  /** The smooth falloff 1 - (cos(a * PI2) * -0.5 + 0.5) of the alignment and cohesion bands. */
  function Falloff(adjusted: real, m: VecMath): real
  {
    1.0 - (m.Cos(adjusted * Pi2) * -0.5 + 0.5)
  }

  /** The squared distance between two bodies, never negative. */
  function DistanceSquared(b1: Body, b2: Body): (d: real)
    ensures d >= 0.0
  {
    var dir := b1.position.Minus(b2.position);
    assert dir.x * dir.x >= 0.0 && dir.y * dir.y >= 0.0;
    dir.LengthSquared()
  }

  /** A squared distance inside the zone as a fraction of the squared zone radius. */
  function ZoneFraction(distSqrd: real, zone: real): (percent: real)
    requires 0.0 <= distSqrd < zone
    ensures 0.0 <= percent < 1.0
  {
    DivStrict(distSqrd, zone, zone);
    DivMonotone(0.0, distSqrd, zone);
    assert zone / zone == 1.0;
    distSqrd / zone
  }

  /** The separation force on the first particle: along the normalised offset, at full low-band strength. */
  function Repulsion(dir: Vec, cfg: FlockConfig, ratio: real, m: VecMath): Vec
  {
    m.Normalized(dir).Scaled(cfg.lowThresh * cfg.repelStrength * ratio)
  }

  /** The alignment factor at `percent`, between the two thresholds. */
  function AlignFactor(percent: real, cfg: FlockConfig, ratio: real, m: VecMath): real
    requires cfg.lowThresh <= percent < cfg.highThresh
  {
    Falloff((percent - cfg.lowThresh) / (cfg.highThresh - cfg.lowThresh), m) * cfg.alignStrength * ratio
  }

  /** The cohesion force on the second particle: toward the first, fading in above the high threshold. */
  function Attraction(dir: Vec, percent: real, cfg: FlockConfig, ratio: real, m: VecMath): Vec
    requires cfg.highThresh <= percent < 1.0
  {
    m.Normalized(dir).Scaled(Falloff((percent - cfg.highThresh) / (1.0 - cfg.highThresh), m) * cfg.attractStrength * ratio)
  }

  /**
   * What a pair does to the two accelerations: nothing, push the first by d
   * and the second by -d, pull the first by -d and the second by d, or add
   * an unrelated vector to each.
   */
  datatype Exchange = Untouched | Apart(d: Vec) | Together(d: Vec) | Along(first: Vec, second: Vec)

  /** The effect of a neighbour inside the zone, at `percent` of the squared zone radius. */
  function BandEffect(b1: Body, b2: Body, percent: real, cfg: FlockConfig, ratio: real, m: VecMath): Exchange
    requires 0.0 <= percent < 1.0
  {
    var dir := b1.position.Minus(b2.position);
    if Strength(BandOf(percent, cfg), cfg) < MinStrength then Untouched
    else
      match BandOf(percent, cfg)
      case Separation => Apart(Repulsion(dir, cfg, ratio, m))
      case Alignment =>
        var f := AlignFactor(percent, cfg, ratio, m);
        Along(b2.direction.Scaled(f), b1.direction.Scaled(f))
      case Cohesion => Together(Attraction(dir, percent, cfg, ratio, m))
  }

  /** What one pair does to its two accelerations: nothing outside the zone, else its band's effect. */
  function PairEffect(b1: Body, b2: Body, cfg: FlockConfig, ratio: real, m: VecMath): Exchange
  {
    var distSqrd := DistanceSquared(b1, b2);
    if !(distSqrd < cfg.zoneRadiusSqrd) then Untouched
    else BandEffect(b1, b2, ZoneFraction(distSqrd, cfg.zoneRadiusSqrd), cfg, ratio, m)
  }

  /**
   * A pair does nothing outside the zone or when its band's strength is
   * below MinStrength; separation pushes the two apart and cohesion pulls
   * them together, by equal and opposite vectors; alignment nudges each
   * along the other's direction.
   */
  lemma PairEffectBands(b1: Body, b2: Body, cfg: FlockConfig, ratio: real, m: VecMath)
    ensures DistanceSquared(b1, b2) >= cfg.zoneRadiusSqrd ==> PairEffect(b1, b2, cfg, ratio, m).Untouched?
    ensures DistanceSquared(b1, b2) < cfg.zoneRadiusSqrd ==>
      var e := PairEffect(b1, b2, cfg, ratio, m);
      var band := BandOf(ZoneFraction(DistanceSquared(b1, b2), cfg.zoneRadiusSqrd), cfg);
      && (e.Untouched? <==> Strength(band, cfg) < MinStrength)
      && (e.Apart? <==> band == Separation && cfg.repelStrength >= MinStrength)
      && (e.Apart? ==> e.d == Repulsion(b1.position.Minus(b2.position), cfg, ratio, m))
      && (e.Together? <==> band == Cohesion && cfg.attractStrength >= MinStrength)
      && (e.Together? ==> exists k :: e.d == m.Normalized(b1.position.Minus(b2.position)).Scaled(k))
      && (e.Along? <==> band == Alignment && cfg.alignStrength >= MinStrength)
      && (e.Along? ==> exists k :: e.first == b2.direction.Scaled(k) && e.second == b1.direction.Scaled(k))
  {
    var distSqrd := DistanceSquared(b1, b2);
    if distSqrd < cfg.zoneRadiusSqrd {
      var percent := ZoneFraction(distSqrd, cfg.zoneRadiusSqrd);
      var e := PairEffect(b1, b2, cfg, ratio, m);
      if e.Together? {
        var k := Falloff((percent - cfg.highThresh) / (1.0 - cfg.highThresh), m) * cfg.attractStrength * ratio;
        assert e.d == m.Normalized(b1.position.Minus(b2.position)).Scaled(k);
      }
      if e.Along? {
        var k := AlignFactor(percent, cfg, ratio, m);
        assert e.first == b2.direction.Scaled(k) && e.second == b1.direction.Scaled(k);
      }
    }
  }

  /** The rule that says what a pair of bodies exchanges; the pass applies it pair by pair. */
  type PairRule = (Body, Body) -> Exchange

  /** The emitter's rule: PairEffect with its flocking parameters and this pass's ratio. */
  function Rule(cfg: FlockConfig, ratio: real, m: VecMath): PairRule
  {
    (b1, b2) => PairEffect(b1, b2, cfg, ratio, m)
  }

  /** With alignment switched off (its strength below MinStrength), no pair of the emitter's rule aligns. */
  lemma RuleWithoutAlignment(cfg: FlockConfig, ratio: real, m: VecMath)
    requires cfg.alignStrength < MinStrength
    ensures forall b1, b2 :: !Rule(cfg, ratio, m)(b1, b2).Along?
  {
    forall b1, b2 ensures !Rule(cfg, ratio, m)(b1, b2).Along? {
      PairEffectBands(b1, b2, cfg, ratio, m);
    }
  }

  /** Row i of the pass: (i, i+1), (i, i+2), ..., (i, j-1). */
  function Row(i: nat, j: nat): seq<(nat, nat)>
    decreases j
  {
    if j <= i + 1 then [] else Row(i, j - 1) + [(i, j - 1)]
  }

  /** Rows 0 .. i-1 of the pass over n particles, in order. */
  function Rows(i: nat, n: nat): seq<(nat, nat)>
  {
    if i == 0 then [] else Rows(i - 1, n) + Row(i - 1, n)
  }

  /** Every pair the pass over n particles visits, in visiting order. */
  function Pairs(n: nat): seq<(nat, nat)>
  {
    Rows(n, n)
  }

  lemma {:induction false} RowMembership(i: nat, j: nat, p: (nat, nat))
    ensures p in Row(i, j) <==> p.0 == i && i < p.1 < j
    decreases j
  {
    if j > i + 1 {
      RowMembership(i, j - 1, p);
    }
  }

  /** Row i involves no particle below i. */
  lemma RowAvoids(i: nat, n: nat, k: nat)
    requires k < i
    ensures forall q :: q in Row(i, n) ==> q.0 != k && q.1 != k
  {
    forall q | q in Row(i, n) ensures q.0 != k && q.1 != k {
      RowMembership(i, n, q);
    }
  }

  lemma {:induction false} RowsMembership(i: nat, n: nat, p: (nat, nat))
    ensures p in Rows(i, n) <==> p.0 < i && p.0 < p.1 < n
  {
    if i > 0 {
      RowsMembership(i - 1, n, p);
      RowMembership(i - 1, n, p);
    }
  }

  /** The pass visits exactly the pairs i < j < n. */
  lemma PairsMembership(n: nat, p: (nat, nat))
    ensures p in Pairs(n) <==> p.0 < p.1 < n
  {
    RowsMembership(n, n, p);
  }

  /** Lexicographic order on pairs. */
  predicate Before(p: (nat, nat), q: (nat, nat))
  {
    p.0 < q.0 || (p.0 == q.0 && p.1 < q.1)
  }

  ghost predicate Increasing(s: seq<(nat, nat)>)
  {
    forall a, b :: 0 <= a < b < |s| ==> Before(s[a], s[b])
  }

  lemma {:induction false} RowIncreasing(i: nat, j: nat)
    ensures Increasing(Row(i, j))
    ensures forall a :: 0 <= a < |Row(i, j)| ==> Row(i, j)[a].0 == i && Row(i, j)[a].1 < j
    decreases j
  {
    if j > i + 1 {
      RowIncreasing(i, j - 1);
    }
  }

  lemma {:induction false} RowsIncreasing(i: nat, n: nat)
    ensures Increasing(Rows(i, n))
    ensures forall a :: 0 <= a < |Rows(i, n)| ==> Rows(i, n)[a].0 < i
  {
    if i > 0 {
      RowsIncreasing(i - 1, n);
      RowIncreasing(i - 1, n);
      var s, r := Rows(i - 1, n), Row(i - 1, n);
      assert Rows(i, n) == s + r;
      forall a, b | 0 <= a < b < |s + r|
        ensures Before((s + r)[a], (s + r)[b])
      {
        if b < |s| {
        } else if a < |s| {
          assert (s + r)[a] == s[a] && (s + r)[b] == r[b - |s|];
        } else {
          assert (s + r)[a] == r[a - |s|] && (s + r)[b] == r[b - |s|];
        }
      }
    }
  }

  /** The pass visits its pairs in strictly increasing order, so none twice. */
  lemma PairsOnce(n: nat)
    ensures Increasing(Pairs(n))
    ensures forall a, b :: 0 <= a < b < |Pairs(n)| ==> Pairs(n)[a] != Pairs(n)[b]
  {
    RowsIncreasing(n, n);
  }

  /** The first particle's acceleration after an exchange: += d, -= d, += its own vector, or unchanged. */
  function FirstAfter(a: Vec, e: Exchange): Vec
  {
    match e
    case Untouched => a
    case Apart(d) => a.Plus(d)
    case Together(d) => a.Minus(d)
    case Along(f1, _) => a.Plus(f1)
  }

  /** The second particle's acceleration after an exchange: -= d, += d, += its own vector, or unchanged. */
  function SecondAfter(a: Vec, e: Exchange): Vec
  {
    match e
    case Untouched => a
    case Apart(d) => a.Minus(d)
    case Together(d) => a.Plus(d)
    case Along(_, f2) => a.Plus(f2)
  }

  /**
   * The accelerations after one pair has acted, the first particle's
   * change applied before the second's. A pair outside the list changes
   * nothing.
   */
  function ApplyPair(acc: seq<Vec>, bodies: seq<Body>, p: (nat, nat), rule: PairRule): (r: seq<Vec>)
    ensures |r| == |acc|
  {
    var (i, j) := p;
    if !(i < |acc| && j < |acc| && i < |bodies| && j < |bodies|) then acc
    else
      var e := rule(bodies[i], bodies[j]);
      var acc1 := acc[i := FirstAfter(acc[i], e)];
      acc1[j := SecondAfter(acc1[j], e)]
  }

  /** A pair of two distinct particles changes exactly those two entries. */
  lemma ApplyPairAt(acc: seq<Vec>, bodies: seq<Body>, i: nat, j: nat, rule: PairRule, k: nat)
    requires i < j < |acc| == |bodies| && k < |acc|
    ensures var e := rule(bodies[i], bodies[j]);
      ApplyPair(acc, bodies, (i, j), rule)[k] ==
        if k == i then FirstAfter(acc[i], e) else if k == j then SecondAfter(acc[j], e) else acc[k]
  {
  }

  /** Accumulating one more pair applies it to the accumulated accelerations. */
  lemma AccumulateStep(acc: seq<Vec>, bodies: seq<Body>, pairs: seq<(nat, nat)>, p: (nat, nat), rule: PairRule)
    ensures Accumulate(acc, bodies, pairs + [p], rule) == ApplyPair(Accumulate(acc, bodies, pairs, rule), bodies, p, rule)
  {
    assert (pairs + [p])[..|pairs|] == pairs;
  }

  /** The accelerations after the pairs have acted, in order. */
  function Accumulate(acc: seq<Vec>, bodies: seq<Body>, pairs: seq<(nat, nat)>, rule: PairRule): (r: seq<Vec>)
    ensures |r| == |acc|
    decreases |pairs|
  {
    if pairs == [] then acc
    else ApplyPair(Accumulate(acc, bodies, pairs[..|pairs| - 1], rule), bodies, pairs[|pairs| - 1], rule)
  }

  lemma {:induction false} AccumulateAppend(acc: seq<Vec>, bodies: seq<Body>, a: seq<(nat, nat)>, b: seq<(nat, nat)>, rule: PairRule)
    ensures Accumulate(acc, bodies, a + b, rule) == Accumulate(Accumulate(acc, bodies, a, rule), bodies, b, rule)
    decreases |b|
  {
    if b != [] {
      var b' := b[..|b| - 1];
      assert (a + b)[..|a + b| - 1] == a + b';
      assert (a + b)[|a + b| - 1] == b[|b| - 1];
      AccumulateAppend(acc, bodies, a, b', rule);
    } else {
      assert a + b == a;
    }
  }

  /** A particle that no pair of the list involves keeps its acceleration. */
  lemma {:induction false} AccumulateUntouched(acc: seq<Vec>, bodies: seq<Body>, pairs: seq<(nat, nat)>, rule: PairRule, k: nat)
    requires k < |acc|
    requires forall q :: q in pairs ==> q.0 != k && q.1 != k
    ensures Accumulate(acc, bodies, pairs, rule)[k] == acc[k]
    decreases |pairs|
  {
    if pairs != [] {
      assert pairs[|pairs| - 1] in pairs;
      AccumulateUntouched(acc, bodies, pairs[..|pairs| - 1], rule, k);
    }
  }

  /** Row i - 1 leaves particle k < i - 1 alone. */
  lemma RowSettles(acc: seq<Vec>, bodies: seq<Body>, i: nat, n: nat, k: nat, rule: PairRule)
    requires k < |acc| && k + 1 < i
    ensures Accumulate(acc, bodies, Rows(i, n), rule)[k] == Accumulate(acc, bodies, Rows(i - 1, n), rule)[k]
  {
    var before, row := Rows(i - 1, n), Row(i - 1, n);
    assert Rows(i, n) == before + row;
    AccumulateAppend(acc, bodies, before, row, rule);
    RowAvoids(i - 1, n, k);
    AccumulateUntouched(Accumulate(acc, bodies, before, rule), bodies, row, rule, k);
  }

  /**
   * Once row k has been processed, no later row touches particle k: its
   * acceleration after rows 0..k is its acceleration after rows 0..i-1.
   */
  lemma {:induction false} RowsSettle(acc: seq<Vec>, bodies: seq<Body>, i: nat, n: nat, k: nat, rule: PairRule)
    requires k < |acc| && k < i
    ensures Accumulate(acc, bodies, Rows(i, n), rule)[k] == Accumulate(acc, bodies, Rows(k + 1, n), rule)[k]
  {
    if i > k + 1 {
      RowsSettle(acc, bodies, i - 1, n, k, rule);
      RowSettles(acc, bodies, i, n, k, rule);
    }
  }

  /** The sum of a list of vectors. */
  function Total(vs: seq<Vec>): Vec
  {
    if vs == [] then Zero else Total(vs[..|vs| - 1]).Plus(vs[|vs| - 1])
  }

  lemma {:induction false} TotalUpdate(vs: seq<Vec>, i: nat, v: Vec)
    requires i < |vs|
    ensures Total(vs[i := v]) == Total(vs).Minus(vs[i]).Plus(v)
    decreases |vs|
  {
    var n := |vs|;
    if i < n - 1 {
      assert vs[i := v][..n - 1] == vs[..n - 1][i := v];
      TotalUpdate(vs[..n - 1], i, v);
    } else {
      assert vs[i := v][..n - 1] == vs[..n - 1];
    }
  }

  /** A push of one entry and the opposite push of another keep the sum. */
  lemma OppositePushes(vs: seq<Vec>, i: nat, j: nat, d: Vec)
    requires i < |vs| && j < |vs|
    ensures Total(vs[i := vs[i].Plus(d)][j := vs[i := vs[i].Plus(d)][j].Minus(d)]) == Total(vs)
  {
    var vs1 := vs[i := vs[i].Plus(d)];
    TotalUpdate(vs, i, vs[i].Plus(d));
    TotalUpdate(vs1, j, vs1[j].Minus(d));
  }

  /**
   * When the rule never aligns, every pair pushes or pulls its two particles
   * by equal and opposite vectors, so the pass leaves the sum of the
   * accelerations unchanged.
   */
  lemma {:induction false} AccumulateKeepsTotal(acc: seq<Vec>, bodies: seq<Body>, pairs: seq<(nat, nat)>, rule: PairRule)
    requires forall b1, b2 :: !rule(b1, b2).Along?
    ensures Total(Accumulate(acc, bodies, pairs, rule)) == Total(acc)
    decreases |pairs|
  {
    if pairs != [] {
      var prev := Accumulate(acc, bodies, pairs[..|pairs| - 1], rule);
      AccumulateKeepsTotal(acc, bodies, pairs[..|pairs| - 1], rule);
      var (i, j) := pairs[|pairs| - 1];
      if i < |prev| && j < |prev| && i < |bodies| && j < |bodies| {
        var acc1 := prev[i := FirstAfter(prev[i], rule(bodies[i], bodies[j]))];
        match rule(bodies[i], bodies[j])
        case Untouched =>
          assert acc1 == prev;
          assert acc1[j := acc1[j]] == prev;
        case Apart(d) =>
          OppositePushes(prev, i, j, d);
        case Together(d) =>
          OppositePushes(prev, i, j, d.Negated());
          assert prev[i].Minus(d) == prev[i].Plus(d.Negated());
          assert acc1[j].Plus(d) == acc1[j].Minus(d.Negated());
        case Along(_, _) =>
      }
    }
  }

  /**
   * With alignment switched off, the emitter's flocking pass leaves the sum
   * of a group's accelerations unchanged.
   */
  lemma FlockKeepsTotal(acc: seq<Vec>, bodies: seq<Body>, pairs: seq<(nat, nat)>, cfg: FlockConfig, ratio: real, m: VecMath)
    requires cfg.alignStrength < MinStrength
    ensures Total(Accumulate(acc, bodies, pairs, Rule(cfg, ratio, m))) == Total(acc)
  {
    RuleWithoutAlignment(cfg, ratio, m);
    AccumulateKeepsTotal(acc, bodies, pairs, Rule(cfg, ratio, m));
  }

  function Accelerations(ks: seq<Kinematics>): (acc: seq<Vec>)
    ensures |acc| == |ks| && forall k :: 0 <= k < |ks| ==> acc[k] == ks[k].acceleration
  {
    seq(|ks|, k requires 0 <= k < |ks| => ks[k].acceleration)
  }

  function Bodies(ks: seq<Kinematics>): (bodies: seq<Body>)
    ensures |bodies| == |ks| && forall k :: 0 <= k < |ks| ==> bodies[k] == BodyOf(ks[k])
  {
    seq(|ks|, k requires 0 <= k < |ks| => BodyOf(ks[k]))
  }

  /**
   * The acceleration each particle of a group has when its own update
   * runs: with a flocking ratio, the pass's accumulated forces; without
   * one, its own.
   */
  function FlockAccelerations(ks: seq<Kinematics>, flock: Option<real>, cfg: FlockConfig, m: VecMath): (acc: seq<Vec>)
    ensures |acc| == |ks|
  {
    match flock
    case Some(ratio) => Accumulate(Accelerations(ks), Bodies(ks), Pairs(|ks|), Rule(cfg, ratio, m))
    case None => Accelerations(ks)
  }

  /** A group after the pass: each particle stepped once, with its accumulated acceleration. */
  function GroupStep(ks: seq<Kinematics>, flock: Option<real>, cfg: FlockConfig,
                     delta: real, prm: Tuning, surface: Option<Surface>, m: VecMath): (r: seq<Kinematics>)
    requires surface.Some? ==> surface.value.Valid()
    ensures |r| == |ks|
  {
    var acc := FlockAccelerations(ks, flock, cfg, m);
    seq(|ks|, k requires 0 <= k < |ks| => Step(ks[k].(acceleration := acc[k]), delta, prm, surface, m))
  }

  /** The particle at index k of a group after the pass. */
  lemma GroupStepAt(ks: seq<Kinematics>, flock: Option<real>, cfg: FlockConfig,
                    delta: real, prm: Tuning, surface: Option<Surface>, m: VecMath, k: nat)
    requires surface.Some? ==> surface.value.Valid()
    requires k < |ks|
    ensures GroupStep(ks, flock, cfg, delta, prm, surface, m)[k]
         == Step(ks[k].(acceleration := FlockAccelerations(ks, flock, cfg, m)[k]), delta, prm, surface, m)
  {
  }
}
