/**
 * The procedural-noise library behind the noise source node: a lazily built
 * permutation table, 2D gradient noise, fractal Brownian motion, Voronoi
 * cells and domain warp. Arithmetic is over `real`. The trigonometric and
 * square-root functions and the floating-point cell hash are parameters
 * (`Oracles`), since only their being functions matters here.
 */
module Procedural {
  import opened Wrappers
  import opened Numeric

  type Byte = b: int | 0 <= b < 256

  /** Ken Perlin's permutation; the table carries the first entry again at index 256, which is never read. */
  const P: seq<Byte> := [151, 160, 137, 91, 90, 15, 131, 13, 201, 95, 96, 53, 194, 233, 7, 225, 140, 36,
    103, 30, 69, 142, 8, 99, 37, 240, 21, 10, 23, 190, 6, 148, 247, 120, 234, 75, 0, 26, 197, 62, 94, 252,
    219, 203, 117, 35, 11, 32, 57, 177, 33, 88, 237, 149, 56, 87, 174, 20, 125, 136, 171, 168, 68, 175, 74,
    165, 71, 134, 139, 48, 27, 166, 77, 146, 158, 231, 83, 111, 229, 122, 60, 211, 133, 230, 220, 105, 92,
    41, 55, 46, 245, 40, 244, 102, 143, 54, 65, 25, 63, 161, 1, 216, 80, 73, 209, 76, 132, 187, 208, 89,
    18, 169, 200, 196, 135, 130, 116, 188, 159, 86, 164, 100, 109, 198, 173, 186, 3, 64, 52, 217, 226, 250,
    124, 123, 5, 202, 38, 147, 118, 126, 255, 82, 85, 212, 207, 206, 59, 227, 47, 16, 58, 17, 182, 189, 28,
    42, 223, 183, 170, 213, 119, 248, 152, 2, 44, 154, 163, 70, 221, 153, 101, 155, 167, 43, 172, 9, 129,
    22, 39, 253, 19, 98, 108, 110, 79, 113, 224, 232, 178, 185, 112, 104, 218, 246, 97, 228, 251, 34, 242,
    193, 238, 210, 144, 12, 191, 179, 162, 241, 81, 51, 145, 235, 249, 14, 239, 107, 49, 192, 214, 31, 181,
    199, 106, 157, 184, 84, 204, 176, 115, 121, 50, 45, 127, 4, 150, 254, 138, 236, 205, 93, 222, 114, 67,
    29, 24, 72, 243, 141, 128, 195, 78, 66, 215, 61, 156, 180, 151]

  /** Size of the doubled permutation table. */
  const PermSize: nat := 512

  datatype Gradient = Gradient(gx: real, gy: real, gz: real)

  /** The twelve edge midpoints of the cube; only the x and y components are used in 2D. */
  const Grad3: seq<Gradient> := [
    Gradient(1.0, 1.0, 0.0), Gradient(-1.0, 1.0, 0.0), Gradient(1.0, -1.0, 0.0), Gradient(-1.0, -1.0, 0.0),
    Gradient(1.0, 0.0, 1.0), Gradient(-1.0, 0.0, 1.0), Gradient(1.0, 0.0, -1.0), Gradient(-1.0, 0.0, -1.0),
    Gradient(0.0, 1.0, 1.0), Gradient(0.0, -1.0, 1.0), Gradient(0.0, 1.0, -1.0), Gradient(0.0, -1.0, -1.0)]

  // ---------------------------------------------------------------------
  // Interpolation
  // ---------------------------------------------------------------------

  function Lerp(a: real, b: real, t: real): real {
    a + t * (b - a)
  }

  /** Lerp runs from a at t = 0 to b at t = 1 and stays between them in between. */
  lemma LerpEndpoints(a: real, b: real, t: real)
    ensures Lerp(a, b, 0.0) == a && Lerp(a, b, 1.0) == b
    ensures 0.0 <= t <= 1.0 ==> Min(a, b) <= Lerp(a, b, t) <= Max(a, b)
  {
    if 0.0 <= t <= 1.0 {
      if a <= b {
        LerpRising(a, b, t);
      } else {
        LerpReversed(a, b, t);
        LerpRising(b, a, 1.0 - t);
      }
    }
  }

  lemma LerpRising(a: real, b: real, t: real)
    requires a <= b && 0.0 <= t <= 1.0
    ensures a <= Lerp(a, b, t) <= b
  {
    var d := b - a;
    MulAtMost(t, d);
    assert Lerp(a, b, t) == a + t * d;
  }

  /** Interpolating from b back to a with the complementary weight gives the same point. */
  lemma LerpReversed(a: real, b: real, t: real)
    ensures Lerp(a, b, t) == Lerp(b, a, 1.0 - t)
  {
  }

  /** The quintic fade curve 6t^5 - 15t^4 + 10t^3. */
  function Fade(t: real): real {
    t * t * t * (t * (t * 6.0 - 15.0) + 10.0)
  }

  /** Fade fixes 0 and 1, is symmetric about 1/2, and maps [0, 1] into [0, 1]. */
  lemma FadeProperties(t: real)
    ensures Fade(0.0) == 0.0 && Fade(1.0) == 1.0
    ensures Fade(1.0 - t) == 1.0 - Fade(t)
    ensures 0.0 <= t <= 1.0 ==> 0.0 <= Fade(t) <= 1.0
  {
    FadeFactored(t);
    if 0.0 <= t <= 1.0 {
      var s := 1.0 - t;
      var q := 6.0 * t * t - 15.0 * t + 10.0;
      assert q == 6.0 * ((t - 1.25) * (t - 1.25)) + 0.625;
      SquareNonneg(t - 1.25);
      MulNonneg(t, t);
      MulNonneg(t * t, t);
      MulNonneg(t * t * t, q);
      MulNonneg(s, s);
      MulNonneg(s * s, s);
      MulNonneg(s * s * s, 6.0 * t * t + 3.0 * t + 1.0);
    }
  }

  /** Fade and its complement in factored form. */
  lemma FadeFactored(t: real)
    ensures Fade(t) == t * t * t * (6.0 * t * t - 15.0 * t + 10.0)
    ensures Fade(1.0 - t) == 1.0 - Fade(t)
    ensures 1.0 - Fade(t) == (1.0 - t) * (1.0 - t) * (1.0 - t) * (6.0 * t * t + 3.0 * t + 1.0)
  {
  }

  // ---------------------------------------------------------------------
  // Gradient noise
  // ---------------------------------------------------------------------

  /** A permutation table as the library holds it; only its first 256 entries are read. */
  type Table = t: seq<Byte> | |t| >= 256 witness seq(256, i => 0)

  /** Entry i of the doubled table `perm`: `p[i & 255]`. */
  function PermAt(p: Table, i: int): Byte
    requires 0 <= i < PermSize
  {
    p[i % 256]
  }

  function DotGradient(g: Gradient, x: real, y: real): real {
    g.gx * x + g.gy * y
  }

  /** `Math.floor(x) & 255`: the bitwise and of a two's-complement integer is its Euclidean remainder mod 256. */
  function LatticeCoord(x: real): (c: int)
    ensures 0 <= c < 256
  {
    x.Floor % 256
  }

  /** `x - Math.floor(x)`. */
  function Frac(x: real): (f: real)
    ensures 0.0 <= f < 1.0
  {
    x - x.Floor as real
  }

  /** Noise inside lattice square (X, Y) at offset (fx, fy) from its corner. */
  function NoiseAt(p: Table, X: int, Y: int, fx: real, fy: real): real
    requires 0 <= X < 256 && 0 <= Y < 256
  {
    var u, v := Fade(fx), Fade(fy);
    var A := PermAt(p, X) + Y;
    var AA, AB := PermAt(p, A), PermAt(p, A + 1);
    var B := PermAt(p, X + 1) + Y;
    var BA, BB := PermAt(p, B), PermAt(p, B + 1);
    Lerp(
      Lerp(DotGradient(Grad3[AA % 12], fx, fy), DotGradient(Grad3[BA % 12], fx - 1.0, fy), u),
      Lerp(DotGradient(Grad3[AB % 12], fx, fy - 1.0), DotGradient(Grad3[BB % 12], fx - 1.0, fy - 1.0), u),
      v)
  }

  /** 2D gradient noise at (x, y). */
  function NoiseValue(p: Table, x: real, y: real): real {
    NoiseAt(p, LatticeCoord(x), LatticeCoord(y), Frac(x), Frac(y))
  }

  /**
   * The lattice hashes stay inside the table: A and B are at most 510, so
   * A + 1 and B + 1 are at most 511, and every gradient index is below 12.
   */
  lemma LatticeIndicesInRange(p: Table, x: real, y: real)
    ensures var X, Y := LatticeCoord(x), LatticeCoord(y);
      && X + 1 < PermSize
      && 0 <= PermAt(p, X) + Y && PermAt(p, X) + Y + 1 < PermSize
      && 0 <= PermAt(p, X + 1) + Y && PermAt(p, X + 1) + Y + 1 < PermSize
      && PermAt(p, PermAt(p, X) + Y) % 12 < |Grad3|
  {
  }

  /** Noise vanishes at every lattice point. */
  lemma NoiseZeroAtLattice(p: Table, x: real, y: real)
    requires x == x.Floor as real && y == y.Floor as real
    ensures NoiseValue(p, x, y) == 0.0
  {
    assert Frac(x) == 0.0 && Frac(y) == 0.0;
    NoiseAtCorner(p, LatticeCoord(x), LatticeCoord(y));
  }

  lemma NoiseAtCorner(p: Table, X: int, Y: int)
    requires 0 <= X < 256 && 0 <= Y < 256
    ensures NoiseAt(p, X, Y, 0.0, 0.0) == 0.0
  {
    FadeProperties(0.0);
  }

  /** Noise repeats every 256 units along both axes. */
  lemma NoisePeriodic(p: Table, x: real, y: real)
    ensures NoiseValue(p, x + 256.0, y) == NoiseValue(p, x, y)
    ensures NoiseValue(p, x, y + 256.0) == NoiseValue(p, x, y)
  {
    FloorShift(x);
    FloorShift(y);
    assert LatticeCoord(x + 256.0) == LatticeCoord(x);
    assert LatticeCoord(y + 256.0) == LatticeCoord(y);
  }

  lemma FloorShift(x: real)
    ensures (x + 256.0).Floor == x.Floor + 256
    ensures Frac(x + 256.0) == Frac(x)
  {
    var f := x.Floor;
    assert (f + 256) as real <= x + 256.0 < (f + 257) as real;
  }

  // ---------------------------------------------------------------------
  // Fractal Brownian motion
  // ---------------------------------------------------------------------

  function Pow(b: real, k: nat): real {
    if k == 0 then 1.0 else Pow(b, k - 1) * b
  }

  /** How fbm shapes each octave's sample. */
  datatype Shaping = Standard | Turbulence | Ridge

  /** fbm's `type` argument: `turbulence` and `ridge` by name, any other string standard. */
  function ShapingOf(kind: string): Shaping {
    if kind == "turbulence" then Turbulence
    else if kind == "ridge" then Ridge
    else Standard
  }

  /** Turbulence folds the sample, ridge inverts and squares it, standard maps [-1, 1] onto [0, 1]. */
  function Shape(n: real, shaping: Shaping): real {
    match shaping
    case Turbulence => Abs(n)
    case Ridge => (1.0 - Abs(n)) * (1.0 - Abs(n))
    case Standard => (n + 1.0) / 2.0
  }

  /** Every shaping maps a sample in [-1, 1] into [0, 1]. */
  lemma ShapeInUnitInterval(n: real, shaping: Shaping)
    requires -1.0 <= n <= 1.0
    ensures 0.0 <= Shape(n, shaping) <= 1.0
  {
    match shaping
    case Turbulence =>
    case Standard =>
    case Ridge =>
      var m := 1.0 - Abs(n);
      assert 0.0 <= m <= 1.0;
      MulAtMost(m, m);
      assert Shape(n, shaping) == m * m;
  }

  /** The shaping step of fbm's loop body. */
  method ShapeSample(sample: real, kind: string) returns (n: real)
    ensures n == Shape(sample, ShapingOf(kind))
  {
    n := sample;
    if kind == "turbulence" {
      n := Abs(n);
    } else if kind == "ridge" {
      n := 1.0 - Abs(n);
      n := n * n;
    } else {
      n := (n + 1.0) / 2.0;
    }
  }

  /** The amplitude of octave i. */
  function Amplitude(gain: real, i: nat): real {
    if i == 0 then 0.5 else Amplitude(gain, i - 1) * gain
  }

  /** The amplitude of octave i is 0.5 * gain^i. */
  lemma {:induction false} AmplitudeIsPower(gain: real, i: nat)
    ensures Amplitude(gain, i) == 0.5 * Pow(gain, i)
  {
    if i > 0 {
      AmplitudeIsPower(gain, i - 1);
      calc {
        Amplitude(gain, i);
        Amplitude(gain, i - 1) * gain;
        (0.5 * Pow(gain, i - 1)) * gain;
        0.5 * (Pow(gain, i - 1) * gain);
      }
    }
  }

  /** The raw sample of an octave at the given frequency. */
  function OctaveSample(noise: (real, real) -> real, x: real, y: real, frequency: real): real {
    noise(x * frequency, y * frequency)
  }

  /** The raw samples of the first k octaves. */
  function Samples(noise: (real, real) -> real, x: real, y: real, lacunarity: real, k: nat): (s: seq<real>)
    ensures |s| == k
  {
    if k == 0 then [] else Samples(noise, x, y, lacunarity, k - 1) + [OctaveSample(noise, x, y, Pow(lacunarity, k - 1))]
  }

  /**
   * One pass of fbm's loop keeps its variables at their meaning: after
   * octave i the total, maxValue, amplitude and frequency are those of i + 1
   * octaves.
   */
  lemma OctaveStep(noise: (real, real) -> real, x: real, y: real, lacunarity: real, gain: real, shaping: Shaping,
                   i: nat, samples: seq<real>, total: real, amplitude: real, frequency: real, maxValue: real,
                   sample: real, n: real)
    requires amplitude == Amplitude(gain, i) && frequency == Pow(lacunarity, i)
    requires samples == Samples(noise, x, y, lacunarity, i)
    requires total == Total(samples, gain, shaping) && maxValue == MaxValue(gain, i)
    requires sample == OctaveSample(noise, x, y, frequency) && n == Shape(sample, shaping)
    ensures amplitude * gain == Amplitude(gain, i + 1) && frequency * lacunarity == Pow(lacunarity, i + 1)
    ensures samples + [sample] == Samples(noise, x, y, lacunarity, i + 1)
    ensures total + n * amplitude == Total(samples + [sample], gain, shaping)
    ensures maxValue + amplitude == MaxValue(gain, i + 1)
  {
    NextAmplitude(amplitude, gain, i);
    NextFrequency(frequency, lacunarity, i);
    SamplesStep(noise, x, y, lacunarity, i);
    TotalExtend(samples, sample, gain, shaping, total, n, amplitude);
  }

  /** `frequency *= lacunarity` keeps frequency at lacunarity^i. */
  lemma NextFrequency(frequency: real, lacunarity: real, i: nat)
    requires frequency == Pow(lacunarity, i)
    ensures frequency * lacunarity == Pow(lacunarity, i + 1)
  {
  }

  /** `amplitude *= gain` keeps amplitude at the amplitude of octave i. */
  lemma NextAmplitude(amplitude: real, gain: real, i: nat)
    requires amplitude == Amplitude(gain, i)
    ensures amplitude * gain == Amplitude(gain, i + 1)
  {
  }

  /** The samples of k + 1 octaves extend those of k by the octave at frequency lacunarity^k. */
  lemma SamplesStep(noise: (real, real) -> real, x: real, y: real, lacunarity: real, k: nat)
    ensures Samples(noise, x, y, lacunarity, k + 1) == Samples(noise, x, y, lacunarity, k) + [OctaveSample(noise, x, y, Pow(lacunarity, k))]
  {
  }

  /** The weighted sum of the shaped samples, octave i weighted by Amplitude(gain, i). */
  function Total(samples: seq<real>, gain: real, shaping: Shaping): real {
    if |samples| == 0 then 0.0
    else
      Total(samples[..|samples| - 1], gain, shaping)
        + Scale(Shape(samples[|samples| - 1], shaping), Amplitude(gain, |samples| - 1))
  }

  /** The sum of the first k amplitudes. */
  function MaxValue(gain: real, k: nat): real {
    if k == 0 then 0.0 else MaxValue(gain, k - 1) + Amplitude(gain, k - 1)
  }

  /** `total / maxValue` over the given samples; `None` where it divides by zero (NaN or an infinity in procedural.js). */
  function Normalised(samples: seq<real>, gain: real, shaping: Shaping): Option<real> {
    if MaxValue(gain, |samples|) == 0.0 then None
    else Some(Total(samples, gain, shaping) / MaxValue(gain, |samples|))
  }

  /** fbm's result: a negative octave count runs no octave, like zero. */
  function FbmValue(noise: (real, real) -> real, x: real, y: real, octaves: int, lacunarity: real, gain: real, shaping: Shaping): Option<real> {
    Normalised(Samples(noise, x, y, lacunarity, if octaves < 0 then 0 else octaves), gain, shaping)
  }

  /** With no octaves fbm divides 0 by 0. */
  lemma FbmWithoutOctaves(noise: (real, real) -> real, x: real, y: real, octaves: int, lacunarity: real, gain: real, shaping: Shaping)
    requires octaves <= 0
    ensures FbmValue(noise, x, y, octaves, lacunarity, gain, shaping) == None
  {
  }

  /** With a positive gain every amplitude is positive. */
  lemma {:induction false} AmplitudePositive(gain: real, k: nat)
    requires gain > 0.0
    ensures Amplitude(gain, k) > 0.0
  {
    if k > 0 {
      AmplitudePositive(gain, k - 1);
      MulPositive(Amplitude(gain, k - 1), gain);
    }
  }

  /** With a positive gain every amplitude is positive, so maxValue is positive from the first octave on. */
  lemma {:induction false} MaxValuePositive(gain: real, k: nat)
    requires gain > 0.0
    ensures k >= 1 ==> MaxValue(gain, k) > 0.0
    ensures MaxValue(gain, k) >= 0.0
  {
    if k > 0 {
      MaxValuePositive(gain, k - 1);
      AmplitudePositive(gain, k - 1);
    }
  }

  /** With samples in [-1, 1] and positive amplitudes, the total lies between 0 and maxValue. */
  lemma {:induction false} TotalBounds(samples: seq<real>, gain: real, shaping: Shaping)
    requires gain > 0.0
    requires forall i :: 0 <= i < |samples| ==> -1.0 <= samples[i] <= 1.0
    ensures 0.0 <= Total(samples, gain, shaping) <= MaxValue(gain, |samples|)
  {
    if |samples| > 0 {
      var k := |samples| - 1;
      TotalBounds(samples[..k], gain, shaping);
      TotalUnfold(samples, gain, shaping);
      ShapeInUnitInterval(samples[k], shaping);
      AmplitudePositive(gain, k);
      WeightedStep(Total(samples[..k], gain, shaping), MaxValue(gain, k), Shape(samples[k], shaping), Amplitude(gain, k));
    }
  }

  /**
   * fbm is a normalised weighted sum: with at least one octave, a positive
   * gain and samples in [-1, 1] it is defined and lies in [0, 1].
   */
  lemma NormalisedInUnitInterval(samples: seq<real>, gain: real, shaping: Shaping)
    requires |samples| >= 1 && gain > 0.0
    requires forall i :: 0 <= i < |samples| ==> -1.0 <= samples[i] <= 1.0
    ensures Normalised(samples, gain, shaping).Some?
    ensures 0.0 <= Normalised(samples, gain, shaping).value <= 1.0
  {
    MaxValuePositive(gain, |samples|);
    TotalBounds(samples, gain, shaping);
    RatioInUnitInterval(Total(samples, gain, shaping), MaxValue(gain, |samples|));
  }

  /** Appending an octave adds its weighted, shaped sample. */
  lemma TotalStep(samples: seq<real>, n: real, gain: real, shaping: Shaping)
    ensures Total(samples + [n], gain, shaping) == Total(samples, gain, shaping) + Scale(Shape(n, shaping), Amplitude(gain, |samples|))
  {
    var s := samples + [n];
    TotalUnfold(s, gain, shaping);
    assert s[..|s| - 1] == samples;
  }

  lemma TotalUnfold(s: seq<real>, gain: real, shaping: Shaping)
    requires |s| > 0
    ensures Total(s, gain, shaping) == Total(s[..|s| - 1], gain, shaping) + Scale(Shape(s[|s| - 1], shaping), Amplitude(gain, |s| - 1))
  {
  }

  /** The running total after one more octave, in the terms the loop keeps. */
  lemma TotalExtend(samples: seq<real>, n: real, gain: real, shaping: Shaping, total: real, w: real, a: real)
    requires total == Total(samples, gain, shaping)
    requires w == Shape(n, shaping) && a == Amplitude(gain, |samples|)
    ensures total + w * a == Total(samples + [n], gain, shaping)
  {
    TotalStep(samples, n, gain, shaping);
    assert w * a == Scale(w, a);
  }

  /** Entry i of the samples is octave i. */
  lemma {:induction false} SamplesAt(noise: (real, real) -> real, x: real, y: real, lacunarity: real, k: nat, i: nat)
    requires i < k
    ensures Samples(noise, x, y, lacunarity, k)[i] == OctaveSample(noise, x, y, Pow(lacunarity, i))
  {
    if i < k - 1 {
      SamplesAt(noise, x, y, lacunarity, k - 1, i);
    }
  }

  /** fbm of (x, y) lies in [0, 1] whenever each octave's noise sample does lie in [-1, 1]. */
  lemma FbmInUnitInterval(noise: (real, real) -> real, x: real, y: real, octaves: int, lacunarity: real, gain: real, shaping: Shaping)
    requires octaves >= 1 && gain > 0.0
    requires forall i :: 0 <= i < octaves ==> -1.0 <= OctaveSample(noise, x, y, Pow(lacunarity, i)) <= 1.0
    ensures FbmValue(noise, x, y, octaves, lacunarity, gain, shaping).Some?
    ensures 0.0 <= FbmValue(noise, x, y, octaves, lacunarity, gain, shaping).value <= 1.0
  {
    var s := Samples(noise, x, y, lacunarity, octaves);
    forall i | 0 <= i < octaves ensures -1.0 <= s[i] <= 1.0 {
      SamplesAt(noise, x, y, lacunarity, octaves, i);
    }
    NormalisedInUnitInterval(s, gain, shaping);
  }

  // ---------------------------------------------------------------------
  // Domain warp
  // ---------------------------------------------------------------------

  /** fbm with two octaves and the default lacunarity 2, gain 0.5 and standard shaping: always defined. */
  function Fbm2(noise: (real, real) -> real, x: real, y: real): real {
    assert MaxValue(0.5, 2) == 0.75;
    FbmValue(noise, x, y, 2, 2.0, 0.5, Standard).value
  }

  datatype Vec = Vec(x: real, y: real)

  /** Moves (x, y) by `amount` times two decorrelated fbm samples. */
  function WarpValue(noise: (real, real) -> real, x: real, y: real, amount: real): Vec {
    Vec(x + amount * Fbm2(noise, x, y), y + amount * Fbm2(noise, x + 5.2, y + 1.3))
  }

  /** Warp with amount 0 leaves the point where it is. */
  lemma WarpZeroIsIdentity(noise: (real, real) -> real, x: real, y: real)
    ensures WarpValue(noise, x, y, 0.0) == Vec(x, y)
  {
  }

  /** Two-octave fbm lies in [0, 1] when both its octave samples lie in [-1, 1]. */
  lemma Fbm2InUnitInterval(noise: (real, real) -> real, x: real, y: real)
    requires -1.0 <= OctaveSample(noise, x, y, 1.0) <= 1.0 && -1.0 <= OctaveSample(noise, x, y, 2.0) <= 1.0
    ensures 0.0 <= Fbm2(noise, x, y) <= 1.0
  {
    FbmInUnitInterval(noise, x, y, 2, 2.0, 0.5, Standard);
  }

  /** With samples in [-1, 1], each coordinate moves forward by at most `amount`. */
  lemma WarpDisplacementBounded(noise: (real, real) -> real, x: real, y: real, amount: real)
    requires amount >= 0.0
    requires -1.0 <= OctaveSample(noise, x, y, 1.0) <= 1.0 && -1.0 <= OctaveSample(noise, x, y, 2.0) <= 1.0
    requires -1.0 <= OctaveSample(noise, x + 5.2, y + 1.3, 1.0) <= 1.0
    requires -1.0 <= OctaveSample(noise, x + 5.2, y + 1.3, 2.0) <= 1.0
    ensures var w := WarpValue(noise, x, y, amount);
      x <= w.x <= x + amount && y <= w.y <= y + amount
  {
    var qx, qy := Fbm2(noise, x, y), Fbm2(noise, x + 5.2, y + 1.3);
    Fbm2InUnitInterval(noise, x, y);
    Fbm2InUnitInterval(noise, x + 5.2, y + 1.3);
    ScaleUnit(amount, qx);
    ScaleUnit(amount, qy);
    assert WarpValue(noise, x, y, amount) == Vec(x + amount * qx, y + amount * qy);
  }

  lemma ScaleUnit(a: real, q: real)
    requires a >= 0.0 && 0.0 <= q <= 1.0
    ensures 0.0 <= a * q <= a
  {
    MulAtMost(q, a);
  }

  // ---------------------------------------------------------------------
  // Voronoi cells
  // ---------------------------------------------------------------------

  /**
   * Functions the noise takes as given: `sin`, `cos`, `sqrt` and `rand`, the
   * double-precision polynomial hash of a scrambled cell seed
   * (`1 - ((t * (t*t*15731 + 789221) + 1376312589) & 0x7fffffff) / 2^30`).
   */
  datatype Oracles = Oracles(sin: real -> real, cos: real -> real, sqrt: real -> real, rand: int -> real)

  /** The feature of one cell: its distance from the sample point and its random id. */
  datatype Cell = Cell(distance: real, id: real)

  /** The value Voronoi starts from and keeps when no cell is closer than 100. */
  const NoCell := Cell(100.0, 0.0)

  /** The distance measures Voronoi knows. */
  datatype MetricKind = Manhattan | Chebychev | Euclidean

  /** Voronoi's `type` argument: `manhattan` and `chebychev` (so spelt) by name, any other string euclidean. */
  function MetricOf(name: string): MetricKind {
    if name == "manhattan" then Manhattan
    else if name == "chebychev" then Chebychev
    else Euclidean
  }

  /** The distance of offset (dx, dy) under a metric. */
  function Metric(dx: real, dy: real, kind: MetricKind, sqrt: real -> real): real {
    match kind
    case Manhattan => Abs(dx) + Abs(dy)
    case Chebychev => Max(Abs(dx), Abs(dy))
    case Euclidean => sqrt(dx * dx + dy * dy)
  }

  /** Manhattan and Chebychev distances are never negative, and Chebychev never exceeds Manhattan. */
  lemma MetricBounds(dx: real, dy: real, sqrt: real -> real)
    ensures 0.0 <= Metric(dx, dy, Chebychev, sqrt) <= Metric(dx, dy, Manhattan, sqrt)
    ensures Metric(dx, dy, Chebychev, sqrt) == Metric(dy, dx, Chebychev, sqrt)
    ensures Metric(dx, dy, Manhattan, sqrt) == Metric(-dx, -dy, Manhattan, sqrt)
  {
  }

  /** The cell seed `(nx & 255) * 31 + (ny & 255) * 13`, below 2^14. */
  function Seed(nx: int, ny: int): (n: int)
    ensures 0 <= n < 0x4000
  {
    (nx % 256) * 31 + (ny % 256) * 13
  }

  /** Neighbouring cells 256 apart share a seed: the hash repeats with period 256 on both axes. */
  lemma SeedPeriodic(nx: int, ny: int)
    ensures Seed(nx + 256, ny) == Seed(nx, ny) && Seed(nx, ny + 256) == Seed(nx, ny)
  {
    assert (nx + 256) % 256 == nx % 256;
    assert (ny + 256) % 256 == ny % 256;
  }

  /** `(n << 13) ^ n` on a 32-bit integer; for seeds below 2^14 nothing is shifted out. */
  function Scramble(n: int): int
    requires 0 <= n < 0x4000
  {
    (((n as bv32) << 13) ^ (n as bv32)) as int
  }

  /** The feature point of cell (nx, ny), measured from (x, y); the id is the cell's first random value. */
  function CellFeature(x: real, y: real, nx: int, ny: int, kind: MetricKind, o: Oracles): Cell {
    var t := Scramble(Seed(nx, ny));
    var randVal := o.rand(t);
    var randVal2 := o.rand(t + 1);
    var pointX := nx as real + 0.5 + 0.5 * o.sin(randVal * 6.28);
    var pointY := ny as real + 0.5 + 0.5 * o.cos(randVal2 * 6.28);
    Cell(Metric(x - pointX, y - pointY, kind, o.sqrt), randVal)
  }

  /** The scan order of the 3x3 block: offset i of the column outermost, offset j of the row innermost. */
  const Offsets: seq<(int, int)> := [(-1, -1), (-1, 0), (-1, 1), (0, -1), (0, 0), (0, 1), (1, -1), (1, 0), (1, 1)]

  /** The neighbour scanned at position c of the 3x3 block. */
  function CellAt(x: real, y: real, kind: MetricKind, o: Oracles, c: nat): Cell
    requires c < 9
  {
    CellFeature(x, y, x.Floor + Offsets[c].0, y.Floor + Offsets[c].1, kind, o)
  }

  /** The first k cells of the 3x3 block around (floor x, floor y), in scan order. */
  function Neighbourhood(x: real, y: real, kind: MetricKind, o: Oracles, k: nat): (cells: seq<Cell>)
    requires k <= 9
    ensures |cells| == k
  {
    if k == 0 then [] else Neighbourhood(x, y, kind, o, k - 1) + [CellAt(x, y, kind, o, k - 1)]
  }

  /** Position 3(i+1) + (j+1) of the scan is the cell at offsets (i, j). */
  lemma CellAtOffsets(x: real, y: real, kind: MetricKind, o: Oracles, i: int, j: int)
    requires -1 <= i <= 1 && -1 <= j <= 1
    ensures CellAt(x, y, kind, o, 3 * (i + 1) + (j + 1)) == CellFeature(x, y, x.Floor + i, y.Floor + j, kind, o)
  {
    assert Offsets[3 * (i + 1) + (j + 1)] == (i, j);
  }

  /** Scans the cells in order from NoCell; a cell replaces the best so far only when strictly closer. */
  function Scan(cells: seq<Cell>): Cell {
    if |cells| == 0 then NoCell
    else
      var best := Scan(cells[..|cells| - 1]);
      var c := cells[|cells| - 1];
      if c.distance < best.distance then c else best
  }

  /**
   * The scan finds the first cell of least distance, if that distance is
   * below 100; otherwise it returns distance 100 and id 0.
   */
  lemma {:induction false} ScanIsFirstMinimum(cells: seq<Cell>)
    ensures var r := Scan(cells);
      && r.distance <= NoCell.distance
      && (forall c :: 0 <= c < |cells| ==> r.distance <= cells[c].distance)
      && ((r == NoCell && forall c :: 0 <= c < |cells| ==> cells[c].distance >= NoCell.distance)
        || (exists w :: 0 <= w < |cells| && r == cells[w] && r.distance < NoCell.distance
              && forall c :: 0 <= c < w ==> cells[c].distance > r.distance))
  {
    if |cells| > 0 {
      var k := |cells| - 1;
      var prefix := cells[..k];
      ScanIsFirstMinimum(prefix);
      var best := Scan(prefix);
      if cells[k].distance < best.distance {
        assert forall c :: 0 <= c < k ==> cells[c].distance > cells[k].distance by {
          forall c | 0 <= c < k ensures cells[c].distance > cells[k].distance {
            assert prefix[c] == cells[c];
          }
        }
      } else {
        forall c | 0 <= c < k ensures prefix[c] == cells[c] { }
      }
    }
  }

  /** Extending the scanned cells by one compares only the new cell against the best so far. */
  lemma ScanStep(cells: seq<Cell>, cell: Cell)
    ensures Scan(cells + [cell]) == if cell.distance < Scan(cells).distance then cell else Scan(cells)
  {
    assert (cells + [cell])[..|cells|] == cells;
  }

  /** One pass of Voronoi's inner loop: the scan extends by the cell at scan position k. */
  lemma NeighbourScanStep(x: real, y: real, kind: MetricKind, o: Oracles, k: nat, best: Cell, cell: Cell)
    requires k < 9
    requires best == Scan(Neighbourhood(x, y, kind, o, k)) && cell == CellAt(x, y, kind, o, k)
    ensures Scan(Neighbourhood(x, y, kind, o, k + 1)) == if cell.distance < best.distance then cell else best
  {
    ScanStep(Neighbourhood(x, y, kind, o, k), cell);
  }

  /** The body of Voronoi's double loop: the feature of neighbour cell (neighborX, neighborY). */
  method NeighbourFeature(x: real, y: real, neighborX: int, neighborY: int, kind: string, o: Oracles)
    returns (dist: real, randVal: real)
    ensures Cell(dist, randVal) == CellFeature(x, y, neighborX, neighborY, MetricOf(kind), o)
  {
    var n := Seed(neighborX, neighborY);
    var t := Scramble(n);
    randVal := o.rand(t);
    var randVal2 := o.rand(t + 1);
    var pointX := neighborX as real + 0.5 + 0.5 * o.sin(randVal * 6.28);
    var pointY := neighborY as real + 0.5 + 0.5 * o.cos(randVal2 * 6.28);
    var dx := x - pointX;
    var dy := y - pointY;
    if kind == "manhattan" {
      dist := Abs(dx) + Abs(dy);
    } else if kind == "chebychev" {
      dist := Max(Abs(dx), Abs(dy));
    } else {
      dist := o.sqrt(dx * dx + dy * dy);
    }
    assert dist == Metric(dx, dy, MetricOf(kind), o.sqrt);
  }

  /** The feature of the neighbour at offsets (i, j) is the cell at scan position 3(i+1) + (j+1). */
  method OffsetFeature(x: real, y: real, i: int, j: int, kind: string, o: Oracles)
    returns (dist: real, randVal: real)
    requires -1 <= i <= 1 && -1 <= j <= 1
    ensures Cell(dist, randVal) == CellAt(x, y, MetricOf(kind), o, 3 * (i + 1) + (j + 1))
  {
    dist, randVal := NeighbourFeature(x, y, x.Floor + i, y.Floor + j, kind, o);
    CellAtOffsets(x, y, MetricOf(kind), o, i, j);
  }

  /** One pass of Voronoi's inner loop: compares the cell at offsets (i, j) against the best so far. */
  method ScanNeighbour(x: real, y: real, kind: string, o: Oracles, i: int, j: int, minDist: real, cellId: real)
    returns (minDist': real, cellId': real)
    requires -1 <= i <= 1 && -1 <= j <= 1
    requires Cell(minDist, cellId) == Scan(Neighbourhood(x, y, MetricOf(kind), o, 3 * (i + 1) + (j + 1)))
    ensures Cell(minDist', cellId') == Scan(Neighbourhood(x, y, MetricOf(kind), o, 3 * (i + 1) + (j + 1) + 1))
  {
    var dist, randVal := OffsetFeature(x, y, i, j, kind, o);
    NeighbourScanStep(x, y, MetricOf(kind), o, 3 * (i + 1) + (j + 1), Cell(minDist, cellId), Cell(dist, randVal));
    if dist < minDist {
      minDist', cellId' := dist, randVal;
    } else {
      minDist', cellId' := minDist, cellId;
    }
  }

  /** Voronoi over the 3x3 block of cells around (x, y): the nearest feature point and its cell's id. */
  method Voronoi(x: real, y: real, kind: string, o: Oracles) returns (r: Cell)
    ensures r == Scan(Neighbourhood(x, y, MetricOf(kind), o, 9))
  {
    var minDist := 100.0;
    var cellId := 0.0;
    for i := -1 to 2
      invariant Cell(minDist, cellId) == Scan(Neighbourhood(x, y, MetricOf(kind), o, 3 * (i + 1)))
    {
      for j := -1 to 2
        invariant Cell(minDist, cellId) == Scan(Neighbourhood(x, y, MetricOf(kind), o, 3 * (i + 1) + (j + 1)))
      {
        minDist, cellId := ScanNeighbour(x, y, kind, o, i, j, minDist, cellId);
      }
    }
    r := Cell(minDist, cellId);
  }

  // ---------------------------------------------------------------------
  // The library object and its cached table
  // ---------------------------------------------------------------------

  /** The library object: the permutation `p`, and `perm`, built on first use and kept. */
  class ProceduralLib {
    const p: Table
    ghost const noise: (real, real) -> real
    var perm: array?<Byte>

    /** Either not built yet, or the 512-entry doubled permutation. */
    ghost predicate Valid()
      reads this, perm
    {
      && (forall a, b {:trigger NoiseValue(p, a, b)} :: noise(a, b) == NoiseValue(p, a, b))
      && (perm != null ==> perm.Length == PermSize && forall i :: 0 <= i < PermSize ==> perm[i] == PermAt(p, i))
    }

    constructor()
      ensures Valid() && p == P && perm == null
    {
      p := P;
      noise := (a, b) => NoiseValue(P, a, b);
      perm := null;
    }

    /** Builds `perm` unless it exists; a second call changes nothing. */
    method Init()
      requires Valid()
      modifies this
      ensures Valid() && perm != null
      ensures old(perm) != null ==> perm == old(perm)
      ensures old(perm) == null ==> fresh(perm)
    {
      if perm != null {
        return;
      }
      var table := new Byte[PermSize];
      for i := 0 to PermSize
        invariant forall j :: 0 <= j < i ==> table[j] == PermAt(p, j)
      {
        table[i] := p[i % 256];
      }
      perm := table;
    }

    /** 2D gradient noise; builds the table on first use. */
    method Noise2D(x: real, y: real) returns (n: real)
      requires Valid()
      modifies this
      ensures Valid() && perm != null && n == noise(x, y)
      ensures old(perm) != null ==> perm == old(perm)
    {
      Init();
      var X := x.Floor % 256;
      var Y := y.Floor % 256;
      var fx := x - x.Floor as real;
      var fy := y - y.Floor as real;
      var u := Fade(fx);
      var v := Fade(fy);
      var A := perm[X] + Y;
      var AA, AB := perm[A], perm[A + 1];
      var B := perm[X + 1] + Y;
      var BA, BB := perm[B], perm[B + 1];
      n := Lerp(
        Lerp(DotGradient(Grad3[AA % 12], fx, fy), DotGradient(Grad3[BA % 12], fx - 1.0, fy), u),
        Lerp(DotGradient(Grad3[AB % 12], fx, fy - 1.0), DotGradient(Grad3[BB % 12], fx - 1.0, fy - 1.0), u),
        v);
      assert n == NoiseValue(p, x, y);
    }

    /** The raw noise sample of one fbm octave, taken at the octave's frequency. */
    method SampleOctave(x: real, y: real, frequency: real) returns (n: real)
      requires Valid()
      modifies this
      ensures Valid() && n == OctaveSample(noise, x, y, frequency)
    {
      n := Noise2D(x * frequency, y * frequency);
    }

    /** Sums `octaves` shaped noise samples with falling amplitude and rising frequency, then normalises. */
    method Fbm(x: real, y: real, octaves: int, lacunarity: real, gain: real, kind: string) returns (r: Option<real>)
      requires Valid()
      modifies this
      ensures Valid() && r == FbmValue(noise, x, y, octaves, lacunarity, gain, ShapingOf(kind))
    {
      ghost var shaping := ShapingOf(kind);
      var total := 0.0;
      var amplitude := 0.5;
      var frequency := 1.0;
      var maxValue := 0.0;
      var i := 0;
      ghost var samples: seq<real> := [];
      while i < octaves
        invariant Valid()
        invariant 0 <= i <= (if octaves < 0 then 0 else octaves)
        invariant amplitude == Amplitude(gain, i) && frequency == Pow(lacunarity, i)
        invariant samples == Samples(noise, x, y, lacunarity, i)
        invariant total == Total(samples, gain, shaping) && maxValue == MaxValue(gain, i)
        decreases octaves - i
      {
        var sample := SampleOctave(x, y, frequency);
        var n := ShapeSample(sample, kind);
        OctaveStep(noise, x, y, lacunarity, gain, shaping, i, samples, total, amplitude, frequency, maxValue, sample, n);
        samples := samples + [sample];
        total := total + n * amplitude;
        maxValue := maxValue + amplitude;
        amplitude := amplitude * gain;
        frequency := frequency * lacunarity;
        i := i + 1;
      }
      assert i == if octaves < 0 then 0 else octaves;
      if maxValue == 0.0 {
        r := None;
      } else {
        r := Some(total / maxValue);
      }
    }

    /** Domain warp by two two-octave fbm samples. */
    method Warp(x: real, y: real, amount: real) returns (w: Vec)
      requires Valid()
      modifies this
      ensures Valid() && w == WarpValue(noise, x, y, amount)
    {
      var qx := Fbm(x, y, 2, 2.0, 0.5, "standard");
      var qy := Fbm(x + 5.2, y + 1.3, 2, 2.0, 0.5, "standard");
      assert ShapingOf("standard") == Standard;
      assert MaxValue(0.5, 2) == 0.75;
      w := Vec(x + amount * qx.value, y + amount * qy.value);
    }
  }
}
