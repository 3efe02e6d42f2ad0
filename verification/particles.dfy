/**
 * The particle swarm: 15000 particles seeded near the centre of the window,
 * recoloured on a theme switch, and moved once per frame. With no target at
 * all they drift and respawn inside the canvas. Otherwise each particle is
 * assigned a target round-robin (text targets first, then a face share and a
 * hand share of the particle indices) and pulled toward it, or pushed away
 * in repel mode, with a capped force, random jitter and damping. Far
 * particles occasionally teleport next to their target.
 *
 * Random draws are parameters: a RandomStream at seeding and recolouring,
 * and one StepDraws record per particle per frame.
 */
module Particles {
  import opened Config
  import opened Targets
  import opened TextTargets

  /** One particle: position, velocity, drawn size, colour and jitter amplitude. */
  datatype Particle = Particle(x: real, y: real, vx: real, vy: real, size: real, color: string, jitter: real)

  /** The Math.random() draws one particle may take in one frame, in the order the frame takes them. */
  datatype StepDraws = StepDraws(kickX: Unit, kickY: Unit, chance: Unit, hopX: Unit, hopY: Unit)

  /** `Math.floor(r * n)`: the palette slot a draw r picks. */
  function PaletteSlot(n: nat, r: Unit): (k: nat)
    requires n > 0
    ensures k < n
    ensures k as real <= r * n as real < k as real + 1.0
  {
    assert r * n as real < n as real by {
      assert n as real - r * n as real == (1.0 - r) * n as real;
    }
    (r * n as real).Floor
  }

  /** pickThemeColor: a colour of the palette, chosen by one draw. */
  function PickColor(palette: seq<string>, r: Unit): (c: string)
    requires |palette| > 0
    ensures c in palette
  {
    palette[PaletteSlot(|palette|, r)]
  }

  /** Every theme has a five-colour palette to pick from. */
  lemma ThemePalettesNonEmpty()
    ensures |Themes| == 5
    ensures forall k :: 0 <= k < |Themes| ==> |Themes[k].palette| == 5
  {
  }

  /** The particle createParticles makes from its seven draws, taken in this order. */
  function Spawn(width: real, height: real, palette: seq<string>,
                 rx: Unit, ry: Unit, rvx: Unit, rvy: Unit, rsize: Unit, rcolor: Unit, rjitter: Unit): Particle
    requires |palette| > 0
  {
    var cx := width * 0.5;
    var cy := height * 0.5;
    Particle(
      cx + (rx - 0.5) * width * 0.2,
      cy + (ry - 0.5) * height * 0.2,
      (rvx - 0.5) * 0.4,
      (rvy - 0.5) * 0.4,
      rsize * 1.2 + 0.6,
      PickColor(palette, rcolor),
      rjitter * 0.5 + 0.2)
  }

  /** The particle made from seven consecutive draws starting at draw number `base`. */
  function Seeded(width: real, height: real, palette: seq<string>, units: nat -> Unit, base: nat): Particle
    requires |palette| > 0
  {
    Spawn(width, height, palette, units(base), units(base + 1), units(base + 2), units(base + 3),
          units(base + 4), units(base + 5), units(base + 6))
  }

  /**
   * A seeded particle starts within a tenth of the window of its centre, with
   * speed components below 0.2, size in [0.6, 1.8), a palette colour and
   * jitter in [0.2, 0.7).
   */
  lemma SeededRanges(width: real, height: real, palette: seq<string>, units: nat -> Unit, base: nat)
    requires width >= 0.0 && height >= 0.0 && |palette| > 0
    ensures var p := Seeded(width, height, palette, units, base);
      && width * 0.4 <= p.x <= width * 0.6
      && height * 0.4 <= p.y <= height * 0.6
      && -0.2 <= p.vx < 0.2 && -0.2 <= p.vy < 0.2
      && 0.6 <= p.size < 1.8
      && p.color in palette
      && 0.2 <= p.jitter < 0.7
  {
    var p := Seeded(width, height, palette, units, base);
    var a := units(base) - 0.5;
    var b := units(base + 1) - 0.5;
    assert -0.5 <= a < 0.5 && -0.5 <= b < 0.5;
    assert p.x - width * 0.5 == a * (width * 0.2);
    assert p.y - height * 0.5 == b * (height * 0.2);
    ScaledWithin(a, width * 0.2);
    ScaledWithin(b, height * 0.2);
  }

  /** A factor in [-0.5, 0.5] scales a nonnegative m to at most m / 2 either way. */
  lemma ScaledWithin(a: real, m: real)
    requires -0.5 <= a <= 0.5 && m >= 0.0
    ensures -0.5 * m <= a * m <= 0.5 * m
  {
    assert (0.5 - a) * m >= 0.0;
    assert (a + 0.5) * m >= 0.0;
  }

  /** The idle branch of updateParticles for one particle: a random kick, damping, and a respawn when it leaves the canvas. */
  function Drift(p: Particle, width: real, height: real, d: StepDraws): Particle
  {
    var vx := (p.vx + (d.kickX - 0.5) * 0.1) * 0.96;
    var vy := (p.vy + (d.kickY - 0.5) * 0.1) * 0.96;
    var x := p.x + vx;
    var y := p.y + vy;
    if x < 0.0 || x > width || y < 0.0 || y > height then
      p.(x := d.hopX * width, y := d.hopY * height, vx := vx, vy := vy)
    else
      p.(x := x, y := y, vx := vx, vy := vy)
  }

  /** After an idle step a particle is on the canvas, whatever its position before, and keeps its size, colour and jitter. */
  lemma DriftStaysOnCanvas(p: Particle, width: real, height: real, d: StepDraws)
    requires width >= 0.0 && height >= 0.0
    ensures var q := Drift(p, width, height, d);
      && 0.0 <= q.x <= width && 0.0 <= q.y <= height
      && q.size == p.size && q.color == p.color && q.jitter == p.jitter
  {
    var vx := (p.vx + (d.kickX - 0.5) * 0.1) * 0.96;
    var vy := (p.vy + (d.kickY - 0.5) * 0.1) * 0.96;
    var x := p.x + vx;
    var y := p.y + vy;
    var q := Drift(p, width, height, d);
    if x < 0.0 || x > width || y < 0.0 || y > height {
      UnitScaled(d.hopX, width);
      UnitScaled(d.hopY, height);
      assert 0.0 <= d.hopX * width <= width;
      assert 0.0 <= d.hopY * height <= height;
      assert q.x == d.hopX * width && q.y == d.hopY * height;
      assert 0.0 <= q.x && q.x <= width;
      assert 0.0 <= q.y && q.y <= height;
    } else {
      assert q.x == x && q.y == y;
    }
  }

  /** A draw scales a nonnegative extent into [0, extent]. */
  lemma UnitScaled(r: Unit, m: real)
    requires m >= 0.0
    ensures 0.0 <= r * m <= m
  {
    assert m - r * m == (1.0 - r) * m;
  }

  /**
   * The number of particles given to the face: none while text is showing;
   * with both face and hand targets, the face's share of all targets clamped
   * to [0.35, 0.6] of the n particles, rounded down; all of them when only
   * the face has targets; none otherwise.
   */
  function FaceCount(n: nat, activeCount: nat, faceCount: nat, handCount: nat): (fc: nat)
    ensures fc <= n
    ensures faceCount == 0 || activeCount > 0 ==> fc == 0
    ensures activeCount == 0 && faceCount > 0 && handCount == 0 ==> fc == n
  {
    if activeCount > 0 then 0
    else if faceCount > 0 && handCount > 0 then
      var ratio := faceCount as real / (faceCount + handCount) as real;
      var atLeast := if ratio > 0.35 then ratio else 0.35;
      var clamped := if atLeast < 0.6 then atLeast else 0.6;
      assert n as real * clamped <= n as real by {
        assert n as real - n as real * clamped == n as real * (1.0 - clamped);
      }
      assert n as real * clamped >= 0.0;
      (n as real * clamped).Floor
    else if faceCount > 0 then n
    else 0
  }

  /**
   * With both face and hand targets and no text, the face gets between 35%
   * and 60% of the particles (rounded down): exactly its share of the targets
   * when that share is in range, and the nearer end of the range otherwise;
   * the hands always keep at least one particle.
   */
  lemma FaceCountSplit(n: nat, faceCount: nat, handCount: nat)
    requires faceCount > 0 && handCount > 0
    ensures var fc := FaceCount(n, 0, faceCount, handCount);
      var ratio := faceCount as real / (faceCount + handCount) as real;
      && (n as real * 0.35).Floor <= fc <= (n as real * 0.6).Floor
      && (0.35 <= ratio <= 0.6 ==> fc == (n as real * ratio).Floor)
      && (ratio < 0.35 ==> fc == (n as real * 0.35).Floor)
      && (ratio > 0.6 ==> fc == (n as real * 0.6).Floor)
      && (n > 0 ==> fc < n)
  {
    var ratio := faceCount as real / (faceCount + handCount) as real;
    var atLeast := if ratio > 0.35 then ratio else 0.35;
    var clamped := if atLeast < 0.6 then atLeast else 0.6;
    assert FaceCount(n, 0, faceCount, handCount) == (n as real * clamped).Floor;
    FlooredShare(n, clamped);
  }

  /** n scaled by a share in [0.35, 0.6] and floored lies between the floors at both ends, and below n. */
  lemma FlooredShare(n: nat, s: real)
    requires 0.35 <= s <= 0.6
    ensures (n as real * 0.35).Floor <= (n as real * s).Floor <= (n as real * 0.6).Floor
    ensures n > 0 ==> (n as real * s).Floor < n
  {
    var m := n as real;
    ScaleMonotone(m, 0.35, s);
    ScaleMonotone(m, s, 0.6);
    FloorMonotone(m * 0.35, m * s);
    FloorMonotone(m * s, m * 0.6);
  }

  lemma ScaleMonotone(m: real, a: real, b: real)
    requires m >= 0.0 && a <= b
    ensures m * a <= m * b
  {
    MulNonneg(m, b - a);
    assert m * b - m * a == m * (b - a);
  }

  lemma FloorMonotone(a: real, b: real)
    requires a <= b
    ensures a.Floor <= b.Floor
  {
  }

  /** Which target list a particle's target comes from. */
  datatype Source = TextSource | FaceSource | HandSource

  /** A particle's target: a list and an index into it. */
  datatype Assignment = Assignment(source: Source, index: nat)

  /**
   * The target of particle i, given the number of particles the frame gives
   * the face and the sizes of the active text, face and hand target lists:
   * text round-robin when text is active, face round-robin below the face
   * particle count, then hands round-robin from that count on, and as a last
   * resort the face. The hand index uses Dafny's Euclidean `%`; it differs
   * from the page's `%` only for i below faceParticles with no face targets,
   * which the frame's FaceCount never gives (no face targets, no face
   * particles), as AssignPartition shows.
   */
  function Assign(i: nat, faceParticles: nat, activeCount: nat, faceCount: nat, handCount: nat): (a: Assignment)
    requires activeCount > 0 || faceCount > 0 || handCount > 0
    ensures a.source == TextSource ==> a.index < activeCount
    ensures a.source == FaceSource ==> a.index < faceCount
    ensures a.source == HandSource ==> a.index < handCount
  {
    if activeCount > 0 then Assignment(TextSource, i % activeCount)
    else if i < faceParticles && faceCount > 0 then Assignment(FaceSource, i % faceCount)
    else if handCount > 0 then Assignment(HandSource, (i - faceParticles) % handCount)
    else Assignment(FaceSource, i % faceCount)
  }

  /**
   * With the face particle count of the frame, the last-resort branch is
   * never taken for a particle index below n: text targets take everything,
   * otherwise indices below the face count go to the face and the rest to
   * the hands.
   */
  lemma AssignPartition(i: nat, n: nat, activeCount: nat, faceCount: nat, handCount: nat)
    requires activeCount > 0 || faceCount > 0 || handCount > 0
    requires i < n
    ensures var fc := FaceCount(n, activeCount, faceCount, handCount);
      var a := Assign(i, fc, activeCount, faceCount, handCount);
      && (activeCount > 0 ==> a == Assignment(TextSource, i % activeCount))
      && (activeCount == 0 && i < fc ==> a == Assignment(FaceSource, i % faceCount))
      && (activeCount == 0 && i >= fc ==> a == Assignment(HandSource, (i - fc) % handCount))
  {
  }

  /** While text is active, the k-th text target goes to particle k. */
  lemma AssignCoversText(faceParticles: nat, activeCount: nat, faceCount: nat, handCount: nat, k: nat)
    requires 0 <= k < activeCount
    ensures Assign(k, faceParticles, activeCount, faceCount, handCount) == Assignment(TextSource, k)
  {
    ModUnique(k, activeCount, 0, k);
  }

  /** Without text, the k-th face target goes to particle k while k is below the face particle count. */
  lemma AssignCoversFace(faceParticles: nat, faceCount: nat, handCount: nat, k: nat)
    requires k < faceCount && k < faceParticles
    ensures Assign(k, faceParticles, 0, faceCount, handCount) == Assignment(FaceSource, k)
  {
    ModUnique(k, faceCount, 0, k);
  }

  /** Without text, the k-th hand target goes to the k-th particle after the face particles. */
  lemma AssignCoversHands(faceParticles: nat, faceCount: nat, handCount: nat, k: nat)
    requires k < handCount
    ensures Assign(faceParticles + k, faceParticles, 0, faceCount, handCount) == Assignment(HandSource, k)
  {
    ModUnique(k, handCount, 0, k);
  }

  /** The target particle i is pulled toward, given the frame's face particle count. */
  function TargetFor(i: nat, faceParticles: nat, active: seq<Target>, face: seq<Target>, hands: seq<Target>): Target
    requires |active| > 0 || |face| > 0 || |hands| > 0
  {
    var a := Assign(i, faceParticles, |active|, |face|, |hands|);
    match a.source
    case TextSource => active[a.index]
    case FaceSource => face[a.index]
    case HandSource => hands[a.index]
  }

  /** `Math.min(3.2, (1.6 + weight) / (dist * 0.12))`: the pull toward a target at distance dist. */
  function Pull(weight: real, dist: real): (pull: real)
    requires dist > 0.0
  {
    var raw := (1.6 + weight) / (dist * 0.12);
    if raw < 3.2 then raw else 3.2
  }

  /** The pull never exceeds 3.2, is positive for a positive weight, and is weaker from further away. */
  lemma PullBounds(weight: real, dist: real, dist': real)
    requires weight > 0.0 && 0.0 < dist <= dist'
    ensures 0.0 < Pull(weight, dist) <= 3.2
    ensures Pull(weight, dist') <= Pull(weight, dist)
  {
    var k := 1.6 + weight;
    assert k / (dist * 0.12) >= k / (dist' * 0.12) by {
      assert k / (dist * 0.12) - k / (dist' * 0.12) == k * (dist' - dist) / (dist * dist' * 0.12);
      assert dist * dist' * 0.12 > 0.0;
      assert k * (dist' - dist) >= 0.0;
    }
  }

  /**
   * The velocity change from a target at offset (dx, dy) and distance dist:
   * along the offset, of size pull, signed by the mode.
   */
  function Force(dx: real, dy: real, weight: real, dist: real, mode: Mode): (real, real)
    requires dist > 0.0
  {
    var pull := Pull(weight, dist);
    (dx / dist * pull * Direction(mode), dy / dist * pull * Direction(mode))
  }

  /** The force is the offset scaled by pull / dist, signed by the mode. */
  lemma ForceScaled(dx: real, dy: real, weight: real, dist: real, mode: Mode)
    requires dist > 0.0
    ensures Force(dx, dy, weight, dist, mode)
      == (dx * (Pull(weight, dist) / dist * Direction(mode)), dy * (Pull(weight, dist) / dist * Direction(mode)))
  {
    ScaledOffset(dx, dist, Pull(weight, dist), Direction(mode));
    ScaledOffset(dy, dist, Pull(weight, dist), Direction(mode));
    var f := Force(dx, dy, weight, dist, mode);
    assert f.0 == dx * (Pull(weight, dist) / dist * Direction(mode));
    assert f.1 == dy * (Pull(weight, dist) / dist * Direction(mode));
    assert f == (f.0, f.1);
  }

  lemma ScaledOffset(d: real, dist: real, pull: real, dir: real)
    requires dist > 0.0
    ensures d / dist * pull * dir == d * (pull / dist * dir)
  {
  }

  /**
   * Attract pulls toward the target and repel pushes away from it with the
   * same force reversed.
   */
  lemma ForceDirection(dx: real, dy: real, weight: real, dist: real)
    requires weight > 0.0 && dist > 0.0
    ensures var a := Force(dx, dy, weight, dist, Attract);
      var r := Force(dx, dy, weight, dist, Repel);
      && r == (-a.0, -a.1)
      && a.0 * dx + a.1 * dy >= 0.0
      && r.0 * dx + r.1 * dy <= 0.0
  {
    PullBounds(weight, dist, dist);
    ForceScaled(dx, dy, weight, dist, Attract);
    ForceScaled(dx, dy, weight, dist, Repel);
    var s := Pull(weight, dist) / dist;
    assert s > 0.0 by { PositiveRatio(Pull(weight, dist), dist); }
    var ka := Pull(weight, dist) / dist * Direction(Attract);
    var kr := Pull(weight, dist) / dist * Direction(Repel);
    assert ka == s && kr == -s;
    var a := Force(dx, dy, weight, dist, Attract);
    var r := Force(dx, dy, weight, dist, Repel);
    assert a.0 == dx * ka && a.1 == dy * ka;
    assert r.0 == dx * kr && r.1 == dy * kr;
    assert r.0 == -a.0 && r.1 == -a.1;
    AlongOffset(dx, dy, ka);
    AlongOffset(dx, dy, kr);
  }

  lemma PositiveRatio(a: real, b: real)
    requires a > 0.0 && b > 0.0
    ensures a / b > 0.0
  {
  }

  /** Scaling an offset by k and projecting it back on the offset has the sign of k. */
  lemma AlongOffset(dx: real, dy: real, k: real)
    ensures k >= 0.0 ==> dx * k * dx + dy * k * dy >= 0.0
    ensures k <= 0.0 ==> dx * k * dx + dy * k * dy <= 0.0
  {
    assert dx * k * dx + dy * k * dy == k * (dx * dx + dy * dy);
  }

  /**
   * When dist is at least the Euclidean length of the offset, as it is for an
   * exact Math.hypot plus 0.01, the force's size is at most the pull, so at
   * most 3.2.
   */
  lemma ForceCapped(dx: real, dy: real, weight: real, dist: real, mode: Mode)
    requires weight > 0.0 && dist > 0.0 && dx * dx + dy * dy <= dist * dist
    ensures var f := Force(dx, dy, weight, dist, mode);
      f.0 * f.0 + f.1 * f.1 <= 3.2 * 3.2
  {
    PullBounds(weight, dist, dist);
    ForceScaled(dx, dy, weight, dist, mode);
    ScaledLength(dx, dy, dist, Pull(weight, dist), Direction(mode));
  }

  /** An offset no longer than dist, scaled by pull / dist and a sign, is no longer than pull. */
  lemma ScaledLength(dx: real, dy: real, dist: real, pull: real, dir: real)
    requires dist > 0.0 && dx * dx + dy * dy <= dist * dist && 0.0 < pull <= 3.2 && (dir == 1.0 || dir == -1.0)
    ensures (dx * (pull / dist * dir)) * (dx * (pull / dist * dir)) + (dy * (pull / dist * dir)) * (dy * (pull / dist * dir)) <= 3.2 * 3.2
  {
    var k := pull / dist * dir;
    assert k * k == (pull / dist) * (pull / dist);
    assert (dx * k) * (dx * k) + (dy * k) * (dy * k) == (dx * dx + dy * dy) * (k * k);
    var q := (dx * dx + dy * dy) / (dist * dist);
    RatioAtMostOne(dx * dx + dy * dy, dist * dist);
    assert (dx * dx + dy * dy) * (k * k) == q * (pull * pull);
    MulAtMost(pull * pull, q);
    SquareAtMost(pull, 3.2);
  }

  lemma RatioAtMostOne(a: real, b: real)
    requires 0.0 <= a <= b && b > 0.0
    ensures 0.0 <= a / b <= 1.0
  {
    assert a / b * b == a;
  }

  lemma SquareAtMost(a: real, b: real)
    requires 0.0 <= a <= b
    ensures a * a <= b * b
  {
    assert b * b - a * a == (b - a) * (b + a);
  }

  lemma MulAtMost(a: real, b: real)
    requires a >= 0.0 && 0.0 <= b <= 1.0
    ensures a * b <= a
  {
    assert a - a * b == a * (1.0 - b);
  }

  /** `target.size || 1.2`: the size a particle eases toward. */
  function EaseSize(size: real): real
  {
    if size == 0.0 then 1.2 else size
  }

  /** The tracking branch of updateParticles for one particle and its target. */
  function Seek(p: Particle, t: Target, mode: Mode, hypot: Metric, d: StepDraws): Particle
  {
    var dx := t.x - p.x;
    var dy := t.y - p.y;
    var dist := hypot(dx, dy) + 0.01;
    var f := Force(dx, dy, t.weight, dist, mode);
    var vx := (p.vx + f.0 + (d.kickX - 0.5) * p.jitter * 0.6) * 0.86;
    var vy := (p.vy + f.1 + (d.kickY - 0.5) * p.jitter * 0.6) * 0.86;
    var moved :=
      if dist > 240.0 && d.chance < 0.01 then
        p.(x := t.x + (d.hopX - 0.5) * 40.0, y := t.y + (d.hopY - 0.5) * 40.0, vx := 0.0, vy := 0.0)
      else
        p.(x := p.x + vx, y := p.y + vy, vx := vx, vy := vy);
    moved.(size := p.size + (EaseSize(t.size) - p.size) * 0.08)
  }

  /**
   * Each step closes 8% of the gap between a particle's size and its target's,
   * and keeps its colour and jitter; a teleport lands within 20 pixels of the
   * target on each axis, at rest.
   */
  lemma SeekProperties(p: Particle, t: Target, mode: Mode, hypot: Metric, d: StepDraws)
    ensures var q := Seek(p, t, mode, hypot, d);
      && q.size - EaseSize(t.size) == (p.size - EaseSize(t.size)) * 0.92
      && q.color == p.color && q.jitter == p.jitter
    ensures var q := Seek(p, t, mode, hypot, d);
      hypot(t.x - p.x, t.y - p.y) + 0.01 > 240.0 && d.chance < 0.01 ==>
        && -20.0 <= q.x - t.x < 20.0 && -20.0 <= q.y - t.y < 20.0
        && q.vx == 0.0 && q.vy == 0.0
  {
  }

  /** Particle i after one frame, given the face particle count, all target lists, the canvas size and its draws. */
  function StepParticle(p: Particle, i: nat, faceParticles: nat, active: seq<Target>, face: seq<Target>, hands: seq<Target>,
                        width: real, height: real, mode: Mode, hypot: Metric, d: StepDraws): Particle
  {
    if |face| + |hands| == 0 && |active| == 0 then Drift(p, width, height, d)
    else Seek(p, TargetFor(i, faceParticles, active, face, hands), mode, hypot, d)
  }

  /** The particle population; the array itself is never replaced, so its length never changes. */
  class Swarm {
    const particles: array<Particle>

    /** The page's particle array, created once with room for MaxParticles. */
    constructor ()
      ensures particles.Length == MaxParticles && fresh(particles)
    {
      particles := new Particle[MaxParticles];
    }

    /** createParticles: every slot reseeded near the window centre, seven draws per particle. */
    method CreateParticles(width: real, height: real, palette: seq<string>, rng: RandomStream)
      requires |palette| > 0
      modifies particles, rng
      ensures rng.used == old(rng.used) + 7 * particles.Length
      ensures forall i :: 0 <= i < particles.Length ==>
        particles[i] == Seeded(width, height, palette, rng.units, old(rng.used) + 7 * i)
    {
      for i := 0 to particles.Length
        invariant rng.used == old(rng.used) + 7 * i
        invariant forall j :: 0 <= j < i ==> particles[j] == Seeded(width, height, palette, rng.units, old(rng.used) + 7 * j)
      {
        var p := SeedParticle(width, height, palette, rng);
        particles[i] := p;
      }
    }

    /** rethemeParticles: every particle gets a new colour from the palette and nothing else changes. */
    method Retheme(palette: seq<string>, rng: RandomStream)
      requires |palette| > 0
      modifies particles, rng
      ensures rng.used == old(rng.used) + particles.Length
      ensures forall i :: 0 <= i < particles.Length ==>
        particles[i] == old(particles[i]).(color := PickColor(palette, rng.units(old(rng.used) + i)))
    {
      for i := 0 to particles.Length
        invariant rng.used == old(rng.used) + i
        invariant forall j :: 0 <= j < i ==> particles[j] == old(particles[j]).(color := PickColor(palette, rng.units(old(rng.used) + j)))
        invariant forall j :: i <= j < particles.Length ==> particles[j] == old(particles[j])
      {
        var c := rng.Next();
        particles[i] := particles[i].(color := palette[PaletteSlot(|palette|, c)]);
      }
    }

    /**
     * The particle loop of updateParticles: every particle takes one step,
     * drifting when there is no target at all and otherwise seeking its
     * round-robin target. Idle particles end on the canvas.
     */
    method Step(active: seq<Target>, face: seq<Target>, hands: seq<Target>,
                width: real, height: real, mode: Mode, hypot: Metric, draws: nat -> StepDraws)
      modifies particles
      ensures forall i :: 0 <= i < particles.Length ==>
        particles[i] == StepParticle(old(particles[i]), i, FaceCount(particles.Length, |active|, |face|, |hands|), active, face, hands, width, height, mode, hypot, draws(i))
      ensures |face| + |hands| == 0 && |active| == 0 && width >= 0.0 && height >= 0.0 ==>
        forall i :: 0 <= i < particles.Length ==>
          0.0 <= particles[i].x <= width && 0.0 <= particles[i].y <= height
    {
      var n := particles.Length;
      var faceParticles := FaceCount(n, |active|, |face|, |hands|);
      ghost var next := (p: Particle, j: nat) => StepParticle(p, j, faceParticles, active, face, hands, width, height, mode, hypot, draws(j));
      for i := 0 to n
        invariant forall j :: 0 <= j < i ==> particles[j] == next(old(particles[j]), j)
        invariant forall j :: i <= j < n ==> particles[j] == old(particles[j])
      {
        var p := particles[i];
        var q := StepOne(p, i, faceParticles, active, face, hands, width, height, mode, hypot, draws(i));
        assert q == next(p, i);
        particles[i] := q;
      }
      if |face| + |hands| == 0 && |active| == 0 && width >= 0.0 && height >= 0.0 {
        forall j | 0 <= j < n
          ensures 0.0 <= particles[j].x <= width && 0.0 <= particles[j].y <= height
        {
          DriftStaysOnCanvas(old(particles[j]), width, height, draws(j));
        }
      }
    }
  }

  /** One particle of createParticles: seven draws, in the order the page takes them. */
  method SeedParticle(width: real, height: real, palette: seq<string>, rng: RandomStream) returns (p: Particle)
    requires |palette| > 0
    modifies rng
    ensures rng.used == old(rng.used) + 7
    ensures p == Seeded(width, height, palette, rng.units, old(rng.used))
  {
    var rx := rng.Next();
    var ry := rng.Next();
    var rvx := rng.Next();
    var rvy := rng.Next();
    var rsize := rng.Next();
    var rcolor := rng.Next();
    var rjitter := rng.Next();
    p := Spawn(width, height, palette, rx, ry, rvx, rvy, rsize, rcolor, rjitter);
  }

  /**
   * The body of the particle loop of updateParticles for particle i,
   * updating velocity, position and size variable by variable as the page
   * does; it agrees with the frame function StepParticle.
   */
  method StepOne(p: Particle, i: nat, faceParticles: nat, active: seq<Target>, face: seq<Target>, hands: seq<Target>,
                 width: real, height: real, mode: Mode, hypot: Metric, d: StepDraws) returns (q: Particle)
    ensures q == StepParticle(p, i, faceParticles, active, face, hands, width, height, mode, hypot, d)
    ensures |face| + |hands| == 0 && |active| == 0 && width >= 0.0 && height >= 0.0 ==>
      0.0 <= q.x <= width && 0.0 <= q.y <= height
    ensures q.color == p.color && q.jitter == p.jitter
  {
    if |face| + |hands| == 0 && |active| == 0 {
      q := DriftOne(p, width, height, d);
      if width >= 0.0 && height >= 0.0 {
        DriftStaysOnCanvas(p, width, height, d);
      }
    } else {
      q := SeekOne(p, TargetFor(i, faceParticles, active, face, hands), mode, hypot, d);
      SeekProperties(p, TargetFor(i, faceParticles, active, face, hands), mode, hypot, d);
    }
  }

  /** The idle branch of the particle loop, statement by statement. */
  method DriftOne(p: Particle, width: real, height: real, d: StepDraws) returns (q: Particle)
    ensures q == Drift(p, width, height, d)
  {
    var vx := (p.vx + (d.kickX - 0.5) * 0.1) * 0.96;
    var vy := (p.vy + (d.kickY - 0.5) * 0.1) * 0.96;
    var x := p.x + vx;
    var y := p.y + vy;
    if x < 0.0 || x > width || y < 0.0 || y > height {
      x := d.hopX * width;
      y := d.hopY * height;
    }
    q := p.(x := x, y := y, vx := vx, vy := vy);
  }

  /** The tracking branch of the particle loop, statement by statement. */
  method SeekOne(p: Particle, t: Target, mode: Mode, hypot: Metric, d: StepDraws) returns (q: Particle)
    ensures q == Seek(p, t, mode, hypot, d)
  {
    var dx := t.x - p.x;
    var dy := t.y - p.y;
    var dist := hypot(dx, dy) + 0.01;
    var dir := Direction(mode);
    var pull := Pull(t.weight, dist);
    var vx := p.vx + dx / dist * pull * dir;
    var vy := p.vy + dy / dist * pull * dir;
    assert vx == p.vx + Force(dx, dy, t.weight, dist, mode).0;
    assert vy == p.vy + Force(dx, dy, t.weight, dist, mode).1;
    vx := vx + (d.kickX - 0.5) * p.jitter * 0.6;
    vy := vy + (d.kickY - 0.5) * p.jitter * 0.6;
    vx := vx * 0.86;
    vy := vy * 0.86;
    var x := p.x + vx;
    var y := p.y + vy;
    if dist > 240.0 && d.chance < 0.01 {
      x := t.x + (d.hopX - 0.5) * 40.0;
      y := t.y + (d.hopY - 0.5) * 40.0;
      vx := 0.0;
      vy := 0.0;
    }
    var size := p.size + (EaseSize(t.size) - p.size) * 0.08;
    q := p.(x := x, y := y, vx := vx, vy := vy, size := size);
  }

  /**
   * updateParticles: picks the active text targets, steps every particle,
   * and, when the frame was not idle, starts the intro typing once the
   * camera is off and the reveal duration has passed.
   */
  method UpdateParticles(swarm: Swarm, text: TextScene, face: seq<Target>, hands: seq<Target>,
                         cameraActive: bool, width: real, height: real, mode: Mode, now: real,
                         hypot: Metric, draws: nat -> StepDraws)
    modifies swarm.particles, text
    ensures var active := old(text.Active(cameraActive, now));
      forall i :: 0 <= i < swarm.particles.Length ==>
        swarm.particles[i] == StepParticle(old(swarm.particles[i]), i, FaceCount(swarm.particles.Length, |active|, |face|, |hands|), active, face, hands, width, height, mode, hypot, draws(i))
    ensures text.targets == old(text.targets) && text.sorted == old(text.sorted)
    ensures text.minX == old(text.minX) && text.maxX == old(text.maxX) && text.startTime == old(text.startTime)
    ensures var idle := |face| + |hands| == 0 && |old(text.Active(cameraActive, now))| == 0;
      text.typingStarted == (old(text.typingStarted)
        || (!idle && !cameraActive && now - old(text.startTime) >= TextRevealDuration * 1000.0))
  {
    var active := text.Active(cameraActive, now);
    swarm.Step(active, face, hands, width, height, mode, hypot, draws);
    var idle := |face| + |hands| == 0 && |active| == 0;
    if !idle && !cameraActive && !text.typingStarted && now - text.startTime >= TextRevealDuration * 1000.0 {
      text.StartTyping();
    }
  }
}
