/**
 * Process-wide constants and the small value types shared by every part of
 * the particle portrait: the force mode, the colour themes, and the types
 * that stand for the browser services the model takes as parameters
 * (Math.random draws and Math.hypot).
 */
module Config {

  /** The global physics mode: particles are pulled toward or pushed from their targets. */
  datatype Mode = Attract | Repel

  /** Space-bar toggle: the other mode. */
  function Toggled(m: Mode): (r: Mode)
    ensures r != m
  {
    if m == Attract then Repel else Attract
  }

  /** Toggling twice is the identity. */
  lemma ToggledInvolution(m: Mode)
    ensures Toggled(Toggled(m)) == m
  {
  }

  /** The sign the force is multiplied by: +1 under Attract, -1 under Repel. */
  function Direction(m: Mode): (d: real)
    ensures d == 1.0 || d == -1.0
    ensures d == 1.0 <==> m == Attract
  {
    if m == Attract then 1.0 else -1.0
  }

  /** Toggling the mode flips the sign of the force. */
  lemma DirectionFlipsOnToggle(m: Mode)
    ensures Direction(Toggled(m)) == -Direction(m)
    ensures Direction(Toggled(Toggled(m))) == Direction(m)
  {
  }

  /** A colour theme: a name, a five-colour particle palette and the translucent trail fill. */
  datatype Theme = Theme(name: string, palette: seq<string>, trail: string)

  const Themes: seq<Theme> := [
    Theme("Rainbow", ["#ff4d6d", "#ffd166", "#64dfdf", "#5f8cff", "#c77dff"], "rgba(6, 7, 12, 0.18)"),
    Theme("Flame", ["#ff9f1c", "#ff5714", "#ffd166", "#ff006e", "#ffa8c6"], "rgba(8, 6, 4, 0.2)"),
    Theme("Ocean", ["#1b998b", "#0ead69", "#0f4c5c", "#5bc0eb", "#c1fba4"], "rgba(5, 10, 14, 0.18)"),
    Theme("Galaxy", ["#f15bb5", "#9b5de5", "#00bbf9", "#00f5d4", "#fee440"], "rgba(7, 6, 12, 0.2)"),
    Theme("Matrix", ["#00f5d4", "#0aff99", "#37ff8b", "#7cff6b", "#c7ff9e"], "rgba(3, 6, 4, 0.22)")
  ]

  /** Size of the particle population, fixed for the life of the page. */
  const MaxParticles: nat := 15000

  /** A draw of Math.random(): a real in [0, 1). */
  type Unit = r: real | 0.0 <= r < 1.0

  /**
   * Math.hypot, passed in as a parameter. The model relies only on it being
   * nonnegative, so every property proved holds for any such distance.
   */
  type Metric = f: (real, real) -> real | forall dx, dy :: f(dx, dy) >= 0.0
    witness (dx: real, dy: real) => 0.0

  /** The golden ratio (1 + sqrt 5) / 2, as the double the browser computes. */
  const Phi: real := 1.618033988749895

  /** The fractional part v mod 1, for the nonnegative arguments JavaScript's % gets here. */
  function Frac(v: real): (r: real)
    ensures 0.0 <= r < 1.0
    ensures (v - r).Floor as real == v - r
  {
    v - v.Floor as real
  }

  /**
   * The cosine and sine of a random angle `Math.random() * 2 * PI`: a unit
   * vector. Trigonometry is not modelled; the draw is the direction itself.
   */
  type Heading = h: (real, real) | h.0 * h.0 + h.1 * h.1 == 1.0 witness (1.0, 0.0)

  /**
   * The page's source of randomness as a seedable stream: draw number k is
   * units(k), or headings(k) when the draw is an angle, and `used` counts the
   * draws taken so far.
   */
  class RandomStream {
    const units: nat -> Unit
    const headings: nat -> Heading
    var used: nat

    constructor (units: nat -> Unit, headings: nat -> Heading)
      ensures this.units == units && this.headings == headings && used == 0
    {
      this.units := units;
      this.headings := headings;
      used := 0;
    }

    /** Math.random(). */
    method Next() returns (r: Unit)
      modifies this
      ensures r == units(old(used)) && used == old(used) + 1
    {
      r := units(used);
      used := used + 1;
    }

    /** (cos a, sin a) for a = Math.random() * 2 * PI. */
    method NextHeading() returns (h: Heading)
      modifies this
      ensures h == headings(old(used)) && used == old(used) + 1
    {
      h := headings(used);
      used := used + 1;
    }
  }
}
