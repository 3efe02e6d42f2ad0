/**
 * The intro text: before the camera starts, the welcome line is rasterised
 * off screen and its opaque pixels, sampled on a square grid, become targets.
 * The targets are sorted by x and revealed left to right over 3.5 seconds
 * with an ease-out curve.
 *
 * Rendering the text is not modelled: the RGBA bytes the browser would
 * return for the rasterised line are a parameter.
 */
module TextTargets {
  import opened Targets

  /** One channel of an RGBA pixel. */
  type Byte = b: int | 0 <= b < 256

  /** Seconds the left-to-right reveal takes. */
  const TextRevealDuration: real := 3.5

  /** Alpha above which a pixel counts as ink. */
  const AlphaThreshold: int := 10

  /** The font size for a window `width` pixels wide: 5% of the width rounded down, clamped to [26, 64]. */
  function FontSize(width: nat): (f: nat)
    ensures 26 <= f <= 64
    ensures 26 <= width / 20 <= 64 ==> f == width / 20
    ensures width / 20 < 26 ==> f == 26
    ensures width / 20 > 64 ==> f == 64
  {
    var scaled := width / 20;
    var capped := if scaled < 64 then scaled else 64;
    if capped > 26 then capped else 26
  }

  /** For a whole number of pixels, 5% rounded down is the integer quotient by 20. */
  lemma FivePercentFloor(width: nat)
    ensures (width as real * 0.05).Floor == width / 20
  {
    var q, r := width / 20, width % 20;
    assert width as real * 0.05 == q as real + r as real / 20.0;
    assert 0.0 <= r as real / 20.0 < 1.0;
  }

  /** The grid spacing: a tenth of the font size, at least 2. */
  function SampleStep(fontSize: nat): (s: nat)
    ensures s >= 2
    ensures fontSize >= 20 ==> s == fontSize / 10
  {
    var tenth := fontSize / 10;
    if tenth > 2 then tenth else 2
  }

  /** For every window width the grid spacing lies between 2 and 6 pixels. */
  lemma SampleStepRange(width: nat)
    ensures 2 <= SampleStep(FontSize(width)) <= 6
  {
  }

  /** The target made from the ink pixel at (x, y). */
  function TextTarget(x: nat, y: nat): Target
  {
    Target(x as real, y as real, 1.4, 1.6)
  }

  lemma PixelIndexInRange(width: nat, height: nat, x: nat, y: nat)
    requires x < width && y < height
    ensures (y * width + x) * 4 + 3 < 4 * width * height
  {
    assert y * width + x < (y + 1) * width;
    assert (y + 1) * width <= height * width by {
      assert y + 1 <= height;
    }
  }

  /** The alpha of pixel (x, y) in an RGBA image is above the threshold. */
  predicate Inked(data: seq<Byte>, width: nat, height: nat, x: nat, y: nat)
    requires |data| == 4 * width * height && x < width && y < height
  {
    PixelIndexInRange(width, height, x, y);
    data[(y * width + x) * 4 + 3] > AlphaThreshold
  }

  /** The targets of row y from column x on, visiting every step-th column. */
  function RowSamples(data: seq<Byte>, width: nat, height: nat, step: nat, y: nat, x: nat): seq<Target>
    requires |data| == 4 * width * height && step > 0 && y < height
    decreases width - x
  {
    if x >= width then []
    else
      var here := if Inked(data, width, height, x, y) then [TextTarget(x, y)] else [];
      here + RowSamples(data, width, height, step, y, x + step)
  }

  /** The targets of the grid from row y down, rows in order and each row left to right. */
  function GridSamples(data: seq<Byte>, width: nat, height: nat, step: nat, y: nat): seq<Target>
    requires |data| == 4 * width * height && step > 0
    decreases height - y
  {
    if y >= height then []
    else RowSamples(data, width, height, step, y, 0) + GridSamples(data, width, height, step, y + step)
  }

  lemma MulAtLeast(k: int, step: int)
    requires k >= 1 && step > 0
    ensures k * step >= step
  {
  }

  /** Euclidean remainder is determined by any quotient-remainder decomposition. */
  lemma ModUnique(a: int, step: int, q: int, r: int)
    requires step > 0 && a == q * step + r && 0 <= r < step
    ensures a % step == r
  {
    var q', r' := a / step, a % step;
    assert (q - q') * step == r' - r;
    if q - q' >= 1 {
      MulAtLeast(q - q', step);
    } else if q' - q >= 1 {
      MulAtLeast(q' - q, step);
    }
  }

  /** Moving the grid origin by one step keeps x on the grid or off it. */
  lemma GridShift(x: nat, x0: nat, step: nat)
    requires step > 0 && x0 + step <= x
    ensures (x - (x0 + step)) % step == (x - x0) % step
  {
    var a := x - (x0 + step);
    assert a + step == (a / step + 1) * step + a % step;
    ModUnique(a + step, step, a / step + 1, a % step);
  }

  /** A column strictly between two grid columns is off the grid. */
  lemma OffGrid(base: nat, d: nat, step: nat)
    requires 0 < d < step && base % step == 0
    ensures (base + d) % step != 0
  {
    assert base + d == (base / step) * step + d;
    ModUnique(base + d, step, base / step, d);
  }

  /** Pixel (x, y) is sampled from column x0 on exactly when x lies on the grid from x0 and is inked. */
  lemma {:induction false} RowSamplesMembership(data: seq<Byte>, width: nat, height: nat, step: nat, y: nat, x0: nat, x: nat)
    requires |data| == 4 * width * height && step > 0 && y < height
    decreases width - x0
    ensures TextTarget(x, y) in RowSamples(data, width, height, step, y, x0)
      <==> x0 <= x < width && (x - x0) % step == 0 && Inked(data, width, height, x, y)
  {
    if x0 < width {
      var rest := RowSamples(data, width, height, step, y, x0 + step);
      var here := if Inked(data, width, height, x0, y) then [TextTarget(x0, y)] else [];
      assert RowSamples(data, width, height, step, y, x0) == here + rest;
      RowSamplesMembership(data, width, height, step, y, x0 + step, x);
      if x0 + step <= x {
        GridShift(x, x0, step);
        assert TextTarget(x, y) !in here;
      } else if x0 < x {
        OffGrid(0, x - x0, step);
        assert TextTarget(x, y) !in here;
      } else if x == x0 {
        assert TextTarget(x, y) in here <==> Inked(data, width, height, x, y);
      }
    }
  }

  /** Every sample of a row has that row's y, a grid column, and the text weight and size. */
  lemma {:induction false} RowSamplesShape(data: seq<Byte>, width: nat, height: nat, step: nat, y: nat, x0: nat, t: Target)
    requires |data| == 4 * width * height && step > 0 && y < height
    requires t in RowSamples(data, width, height, step, y, x0)
    decreases width - x0
    ensures exists x: nat :: x0 <= x < width && t == TextTarget(x, y)
  {
    if x0 < width {
      if t != TextTarget(x0, y) {
        RowSamplesShape(data, width, height, step, y, x0 + step, t);
      }
    }
  }

  /** Every sample is the target of an inked grid pixel, and every inked grid pixel is sampled. */
  lemma {:induction false} GridSamplesMembership(data: seq<Byte>, width: nat, height: nat, step: nat, y0: nat, x: nat, y: nat)
    requires |data| == 4 * width * height && step > 0 && y0 % step == 0
    decreases height - y0
    ensures TextTarget(x, y) in GridSamples(data, width, height, step, y0)
      <==> y0 <= y < height && x < width && x % step == 0 && y % step == 0 && Inked(data, width, height, x, y)
  {
    if y0 < height {
      var row := RowSamples(data, width, height, step, y0, 0);
      var rest := GridSamples(data, width, height, step, y0 + step);
      assert GridSamples(data, width, height, step, y0) == row + rest;
      GridShift(y0 + step, 0, step);
      GridSamplesMembership(data, width, height, step, y0 + step, x, y);
      if y == y0 {
        RowSamplesMembership(data, width, height, step, y0, 0, x);
      } else {
        if TextTarget(x, y) in row {
          RowSamplesShape(data, width, height, step, y0, 0, TextTarget(x, y));
        }
        assert TextTarget(x, y) !in row;
        if y0 < y < y0 + step {
          OffGrid(y0, y - y0, step);
        }
      }
    }
  }

  /**
   * The bounds kept beside the targets: every target lies in [minX, maxX],
   * both are attained when there is a target, and with no target they keep
   * their starting values width and 0.
   */
  predicate TightBounds(targets: seq<Target>, width: nat, minX: nat, maxX: nat)
  {
    && (forall i :: 0 <= i < |targets| ==> minX as real <= targets[i].x <= maxX as real)
    && (|targets| == 0 ==> minX == width && maxX == 0)
    && (|targets| > 0 ==>
          (exists i :: 0 <= i < |targets| && targets[i].x == minX as real)
          && (exists i :: 0 <= i < |targets| && targets[i].x == maxX as real))
  }

  /** Appending the target at column x and widening the bounds to x keeps them tight. */
  lemma TightBoundsAppend(targets: seq<Target>, width: nat, minX: nat, maxX: nat, x: nat, y: nat)
    requires TightBounds(targets, width, minX, maxX) && x < width
    ensures TightBounds(targets + [TextTarget(x, y)], width, if x < minX then x else minX, if x > maxX then x else maxX)
  {
    var s := targets + [TextTarget(x, y)];
    assert s[|targets|] == TextTarget(x, y);
    forall i | 0 <= i < |targets|
      ensures s[i] == targets[i]
    {
    }
    if |targets| > 0 {
      var lo :| 0 <= lo < |targets| && targets[lo].x == minX as real;
      var hi :| 0 <= hi < |targets| && targets[hi].x == maxX as real;
      assert s[lo] == targets[lo] && s[hi] == targets[hi];
    }
  }

  /** The inner sampling loop of buildTextTargets: row y's samples are appended and the bounds widened to them. */
  method SampleRow(width: nat, height: nat, data: seq<Byte>, step: nat, y: nat, targets0: seq<Target>, minX0: nat, maxX0: nat)
    returns (targets: seq<Target>, minX: nat, maxX: nat)
    requires |data| == 4 * width * height && step > 0 && y < height
    requires TightBounds(targets0, width, minX0, maxX0)
    ensures targets == targets0 + RowSamples(data, width, height, step, y, 0)
    ensures TightBounds(targets, width, minX, maxX)
  {
    targets, minX, maxX := targets0, minX0, maxX0;
    var x := 0;
    while x < width
      invariant targets + RowSamples(data, width, height, step, y, x) == targets0 + RowSamples(data, width, height, step, y, 0)
      invariant TightBounds(targets, width, minX, maxX)
      decreases width - x
    {
      PixelIndexInRange(width, height, x, y);
      if data[(y * width + x) * 4 + 3] > AlphaThreshold {
        ghost var rest := RowSamples(data, width, height, step, y, x + step);
        assert RowSamples(data, width, height, step, y, x) == [TextTarget(x, y)] + rest;
        assert targets + ([TextTarget(x, y)] + rest) == (targets + [TextTarget(x, y)]) + rest;
        TightBoundsAppend(targets, width, minX, maxX, x, y);
        targets := targets + [Target(x as real, y as real, 1.4, 1.6)];
        if x < minX {
          minX := x;
        }
        if x > maxX {
          maxX := x;
        }
      } else {
        assert RowSamples(data, width, height, step, y, x) == RowSamples(data, width, height, step, y, x + step);
      }
      x := x + step;
    }
  }

  /**
   * The sampling loops of buildTextTargets: every step-th pixel of every
   * step-th row, in row order, becomes a target when its alpha is above the
   * threshold, and the leftmost and rightmost sampled columns are tracked.
   */
  method SampleText(width: nat, height: nat, data: seq<Byte>) returns (targets: seq<Target>, minX: nat, maxX: nat)
    requires |data| == 4 * width * height
    ensures targets == GridSamples(data, width, height, SampleStep(FontSize(width)), 0)
    ensures TightBounds(targets, width, minX, maxX)
  {
    var step := SampleStep(FontSize(width));
    targets := [];
    minX := width;
    maxX := 0;
    var y := 0;
    while y < height
      invariant targets + GridSamples(data, width, height, step, y) == GridSamples(data, width, height, step, 0)
      invariant TightBounds(targets, width, minX, maxX)
      decreases height - y
    {
      ghost var before := targets;
      ghost var row := RowSamples(data, width, height, step, y, 0);
      ghost var rest := GridSamples(data, width, height, step, y + step);
      assert GridSamples(data, width, height, step, y) == row + rest;
      targets, minX, maxX := SampleRow(width, height, data, step, y, targets, minX, maxX);
      assert before + (row + rest) == (before + row) + rest;
      y := y + step;
    }
  }

  /** Targets ordered by x. */
  predicate SortedByX(s: seq<Target>)
  {
    forall i, j :: 0 <= i < j < |s| ==> s[i].x <= s[j].x
  }

  /** Inserts t ahead of every target whose x is not smaller. */
  function InsertByX(t: Target, s: seq<Target>): (r: seq<Target>)
    requires SortedByX(s)
    ensures SortedByX(r)
    ensures multiset(r) == multiset(s) + multiset{t}
    ensures r[0] == t || (|s| > 0 && r[0] == s[0])
  {
    if |s| == 0 || t.x <= s[0].x then [t] + s
    else
      var rest := InsertByX(t, s[1..]);
      assert s == [s[0]] + s[1..];
      var r := [s[0]] + rest;
      assert forall i :: 0 < i < |r| ==> s[0].x <= rest[0].x <= r[i].x;
      r
  }

  /** `[...targets].sort((a, b) => a.x - b.x)`: the same targets, ordered by x. */
  function SortByX(s: seq<Target>): (r: seq<Target>)
    ensures SortedByX(r)
    ensures multiset(r) == multiset(s)
  {
    if |s| == 0 then []
    else
      assert s == [s[0]] + s[1..];
      InsertByX(s[0], SortByX(s[1..]))
  }

  /** The targets of s whose x is v, in their order in s. */
  function AtX(s: seq<Target>, v: real): (r: seq<Target>)
    ensures forall i :: 0 <= i < |r| ==> r[i].x == v
  {
    if |s| == 0 then [] else (if s[0].x == v then [s[0]] else []) + AtX(s[1..], v)
  }

  /** Inserting t puts it ahead of every target with the same x. */
  lemma {:induction false} InsertByXAtX(t: Target, s: seq<Target>, v: real)
    requires SortedByX(s)
    ensures AtX(InsertByX(t, s), v) == (if t.x == v then [t] else []) + AtX(s, v)
  {
    if |s| == 0 || t.x <= s[0].x {
      assert ([t] + s)[1..] == s;
    } else {
      var rest := InsertByX(t, s[1..]);
      assert InsertByX(t, s) == [s[0]] + rest;
      InsertByXAtX(t, s[1..], v);
      var head := if s[0].x == v then [s[0]] else [];
      assert ([s[0]] + rest)[1..] == rest;
      assert AtX([s[0]] + rest, v) == head + AtX(rest, v);
      assert AtX(s, v) == head + AtX(s[1..], v);
      if t.x == v {
        assert head == [];
      }
    }
  }

  /**
   * The sort is stable, as Array.prototype.sort is: targets with equal x
   * keep their relative order.
   */
  lemma {:induction false} SortByXStable(s: seq<Target>, v: real)
    ensures AtX(SortByX(s), v) == AtX(s, v)
  {
    if |s| > 0 {
      SortByXStable(s[1..], v);
      InsertByXAtX(s[0], SortByX(s[1..]), v);
    }
  }

  /**
   * `findIndex(t => t.x > revealX)` on s from position `from`: the first such
   * position, or -1 when there is none.
   */
  function FirstBeyond(s: seq<Target>, revealX: real, from: nat): (k: int)
    requires from <= |s|
    decreases |s| - from
    ensures k == -1 || from <= k < |s|
    ensures k == -1 <==> forall j :: from <= j < |s| ==> s[j].x <= revealX
    ensures k != -1 ==> s[k].x > revealX && forall j :: from <= j < k ==> s[j].x <= revealX
  {
    if from == |s| then -1
    else if s[from].x > revealX then from
    else FirstBeyond(s, revealX, from + 1)
  }

  /** The reveal front `elapsed` seconds after the text was built, easing out from minX to maxX. */
  function RevealX(minX: real, maxX: real, elapsed: real): real
  {
    var ratio := elapsed / TextRevealDuration;
    var progress := if ratio < 1.0 then ratio else 1.0;
    var eased := 1.0 - (1.0 - progress) * (1.0 - progress);
    minX + (maxX - minX) * eased
  }

  /** The front starts at minX, never passes maxX, and reaches it once the reveal duration has elapsed. */
  lemma RevealXRange(minX: real, maxX: real, elapsed: real)
    requires minX <= maxX
    ensures elapsed >= 0.0 ==> minX <= RevealX(minX, maxX, elapsed)
    ensures RevealX(minX, maxX, elapsed) <= maxX
    ensures elapsed == 0.0 ==> RevealX(minX, maxX, elapsed) == minX
    ensures elapsed >= TextRevealDuration ==> RevealX(minX, maxX, elapsed) == maxX
  {
    var ratio := elapsed / TextRevealDuration;
    var progress := if ratio < 1.0 then ratio else 1.0;
    var eased := 1.0 - (1.0 - progress) * (1.0 - progress);
    MulNonneg(1.0 - progress, 1.0 - progress);
    MulNonneg(maxX - minX, 1.0 - eased);
    assert (maxX - minX) * eased == (maxX - minX) - (maxX - minX) * (1.0 - eased);
    if elapsed >= 0.0 {
      assert 0.0 <= progress <= 1.0;
      MulNonneg(1.0 - progress, progress);
      assert (1.0 - progress) * (1.0 - progress) == (1.0 - progress) - (1.0 - progress) * progress;
      MulNonneg(maxX - minX, eased);
    }
  }

  lemma MulNonneg(a: real, b: real)
    requires a >= 0.0 && b >= 0.0
    ensures a * b >= 0.0
  {
  }

  /** The front only moves right as time passes. */
  lemma RevealXMonotone(minX: real, maxX: real, e1: real, e2: real)
    requires minX <= maxX && e1 <= e2
    ensures RevealX(minX, maxX, e1) <= RevealX(minX, maxX, e2)
  {
    var r1 := e1 / TextRevealDuration;
    var r2 := e2 / TextRevealDuration;
    var p1 := if r1 < 1.0 then r1 else 1.0;
    var p2 := if r2 < 1.0 then r2 else 1.0;
    assert p1 <= p2 <= 1.0;
    var a := 1.0 - p1;
    var b := 1.0 - p2;
    assert a >= b >= 0.0;
    assert a * a >= b * b by {
      assert a * a - b * b == (a - b) * (a + b);
      assert (a - b) * (a + b) >= 0.0;
    }
    var eased1 := 1.0 - a * a;
    var eased2 := 1.0 - b * b;
    assert (maxX - minX) * (eased2 - eased1) >= 0.0;
  }

  /**
   * The text targets that pull particles this frame: none once the camera is
   * on or when there is no text; otherwise the sorted targets up to the
   * first one right of the reveal front, but always at least one.
   */
  function ActiveTextTargets(cameraActive: bool, sorted: seq<Target>, minX: real, maxX: real, elapsed: real): (r: seq<Target>)
    ensures cameraActive || |sorted| == 0 ==> r == []
    ensures !cameraActive && |sorted| > 0 ==> 1 <= |r| <= |sorted| && r == sorted[..|r|]
  {
    if cameraActive || |sorted| == 0 then []
    else
      var k := FirstBeyond(sorted, RevealX(minX, maxX, elapsed), 0);
      if k == -1 then sorted else sorted[..if k > 1 then k else 1]
  }

  /**
   * On x-sorted text, the active targets are exactly the first target and
   * those at or left of the reveal front.
   */
  lemma ActiveAreLeftOfFront(sorted: seq<Target>, minX: real, maxX: real, elapsed: real)
    requires SortedByX(sorted) && |sorted| > 0
    ensures var r := ActiveTextTargets(false, sorted, minX, maxX, elapsed);
      forall i :: 0 <= i < |sorted| ==>
        (i < |r| <==> i == 0 || sorted[i].x <= RevealX(minX, maxX, elapsed))
  {
    var front := RevealX(minX, maxX, elapsed);
    var k := FirstBeyond(sorted, front, 0);
    if k != -1 {
      forall i | k <= i < |sorted|
        ensures sorted[i].x > front
      {
        assert sorted[k].x <= sorted[i].x;
      }
    }
  }

  /** Over time the active prefix only grows. */
  lemma ActiveGrowsOverTime(sorted: seq<Target>, minX: real, maxX: real, e1: real, e2: real)
    requires SortedByX(sorted) && |sorted| > 0 && minX <= maxX && e1 <= e2
    ensures |ActiveTextTargets(false, sorted, minX, maxX, e1)| <= |ActiveTextTargets(false, sorted, minX, maxX, e2)|
  {
    RevealXMonotone(minX, maxX, e1, e2);
    ActiveAreLeftOfFront(sorted, minX, maxX, e1);
    ActiveAreLeftOfFront(sorted, minX, maxX, e2);
  }

  /** Once the reveal duration has elapsed, every target within the bounds is active. */
  lemma FullyRevealed(sorted: seq<Target>, minX: real, maxX: real, elapsed: real)
    requires |sorted| > 0 && minX <= maxX && elapsed >= TextRevealDuration
    requires forall t :: t in sorted ==> t.x <= maxX
    ensures ActiveTextTargets(false, sorted, minX, maxX, elapsed) == sorted
  {
    RevealXRange(minX, maxX, elapsed);
    assert forall j :: 0 <= j < |sorted| ==> sorted[j] in sorted;
  }

  /** The intro text state: the sampled targets, their x-sorted copy, their bounds and when they were built. */
  class TextScene {
    var targets: seq<Target>
    var sorted: seq<Target>
    var minX: nat
    var maxX: nat
    var startTime: real
    var typingStarted: bool

    /** Page load: no text yet, bounds 0 and 0, reveal clock started, intro terminal not started. */
    constructor (now: real)
      ensures targets == [] && sorted == [] && minX == 0 && maxX == 0 && startTime == now && !typingStarted
    {
      targets := [];
      sorted := [];
      minX := 0;
      maxX := 0;
      startTime := now;
      typingStarted := false;
    }

    /** startTyping: the intro terminal starts, at most once; typing it out is not modelled. */
    method StartTyping()
      modifies this
      ensures typingStarted
      ensures targets == old(targets) && sorted == old(sorted) && minX == old(minX) && maxX == old(maxX)
      ensures startTime == old(startTime)
    {
      if typingStarted {
        return;
      }
      typingStarted := true;
    }

    /** buildTextTargets for a window of width x height with the given rasterised text. */
    method Rebuild(width: nat, height: nat, data: seq<Byte>, now: real)
      requires |data| == 4 * width * height
      modifies this
      ensures targets == GridSamples(data, width, height, SampleStep(FontSize(width)), 0)
      ensures sorted == SortByX(targets)
      ensures TightBounds(targets, width, minX, maxX)
      ensures startTime == now && typingStarted == old(typingStarted)
    {
      startTime := now;
      targets, minX, maxX := SampleText(width, height, data);
      sorted := SortByX(targets);
    }

    /** The text targets active at time `now`. */
    function Active(cameraActive: bool, now: real): seq<Target>
      reads this
    {
      ActiveTextTargets(cameraActive, sorted, minX as real, maxX as real, (now - startTime) / 1000.0)
    }
  }

  /**
   * After a rebuild with some ink, the scene is valid, and 3.5 seconds later
   * every text target is active.
   */
  lemma RebuiltSceneRevealsAll(targets: seq<Target>, width: nat, minX: nat, maxX: nat, elapsed: real)
    requires TightBounds(targets, width, minX, maxX) && |targets| > 0 && elapsed >= TextRevealDuration
    ensures minX <= maxX
    ensures forall t :: t in SortByX(targets) ==> minX as real <= t.x <= maxX as real
    ensures ActiveTextTargets(false, SortByX(targets), minX as real, maxX as real, elapsed) == SortByX(targets)
  {
    var sorted := SortByX(targets);
    forall t | t in sorted
      ensures minX as real <= t.x <= maxX as real
    {
      assert t in multiset(sorted);
      assert t in targets;
    }
    var w :| 0 <= w < |targets| && targets[w].x == minX as real;
    assert |sorted| > 0 by {
      assert targets[w] in multiset(targets);
    }
    FullyRevealed(sorted, minX as real, maxX as real, elapsed);
  }
}
