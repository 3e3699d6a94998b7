/**
 * The colour mapping of the fractal renderer: `wavelength_to_rgb` and
 * `normalize` (src/main.rs). The `f32` ramps are exact rationals here;
 * the `powf(0.8)` gamma curve is the parameter `gamma`.
 */
module Spectrum {
  import opened Prims

  /** Channel intensities before normalisation, each meant to lie in [0, 1]. */
  datatype Channels = Channels(r: real, g: real, b: real)

  /** An 8-bit-per-channel colour (`sdl2::pixels::Color::RGB`). */
  datatype Color = RGB(r: U8, g: U8, b: U8)

  /** The wavelengths (in nanometres) that have a colour other than black. */
  predicate Visible(w: int) {
    380 <= w <= 780
  }

  /** The wavelengths where the intensity tapers off at the violet or the red end. */
  predicate Tapered(w: int) {
    380 <= w <= 419 || 701 <= w <= 780
  }

  /**
   * The first `match` of `wavelength_to_rgb`: five bands from 380 to 644,
   * each ramping one channel linearly and holding the other two at 0 or 1;
   * constant red on 645..=780; black for every other wavelength.
   */
  function RampChannels(w: U32): (ch: Channels)
    ensures Visible(w) ==> 0.0 <= ch.r <= 1.0 && 0.0 <= ch.g <= 1.0 && 0.0 <= ch.b <= 1.0
    ensures Visible(w) ==> ch.r == 1.0 || ch.g == 1.0 || ch.b == 1.0
    ensures Visible(w) ==> ch.r == 0.0 || ch.g == 0.0 || ch.b == 0.0
    ensures !Visible(w) ==> ch == Channels(0.0, 0.0, 0.0)
  {
    var wave := w as real;
    if 380 <= w <= 439 then Channels((440.0 - wave) / (440.0 - 380.0), 0.0, 1.0)
    else if 440 <= w <= 489 then Channels(0.0, (wave - 440.0) / (490.0 - 440.0), 1.0)
    else if 490 <= w <= 509 then Channels(0.0, 1.0, (510.0 - wave) / (510.0 - 490.0))
    else if 510 <= w <= 579 then Channels((wave - 510.0) / (580.0 - 510.0), 1.0, 0.0)
    else if 580 <= w <= 644 then Channels(1.0, (645.0 - wave) / (645.0 - 580.0), 0.0)
    else if 645 <= w <= 780 then Channels(1.0, 0.0, 0.0)
    else Channels(0.0, 0.0, 0.0)
  }

  /** The second `match` of `wavelength_to_rgb`: the intensity taper at both ends of the spectrum. */
  function Factor(w: U32): (f: real)
    ensures 0.3 <= f <= 1.0
    ensures w == 380 || w == 780 ==> f == 0.3
    ensures f == 1.0 <==> !Tapered(w)
  {
    var wave := w as real;
    if 380 <= w <= 419 then 0.3 + 0.7 * (wave - 380.0) / (420.0 - 380.0)
    else if 701 <= w <= 780 then 0.3 + 0.7 * (780.0 - wave) / (780.0 - 700.0)
    else 1.0
  }

  /**
   * Rust's `as u8` on a float: truncation toward zero, saturating at 0 and
   * at 255 (a NaN, which cannot arise from reals, would give 0).
   */
  function TruncateToU8(x: real): (n: U8)
    ensures x <= 0.0 ==> n == 0
    ensures x >= 255.0 ==> n == 255
    ensures 0.0 <= x < 256.0 ==> n as real <= x < n as real + 1.0
  {
    if x <= 0.0 then 0 else if x >= 255.0 then 255 else x.Floor
  }

  /** What the model uses of `powf(0.8)`: it fixes 0 and 1. */
  ghost predicate FixesEndpoints(gamma: real -> real) {
    gamma(0.0) == 0.0 && gamma(1.0) == 1.0
  }

  /** What the model uses of `powf(0.8)`: it is monotone on [0, 1]. */
  ghost predicate MonotoneOnUnit(gamma: real -> real) {
    forall a: real, b: real :: 0.0 <= a <= b <= 1.0 ==> gamma(a) <= gamma(b)
  }

  /**
   * `normalize`: the channel scaled by the taper factor, passed through the
   * gamma curve `gamma` (standing for `powf(0.8)`), scaled to 255 and cast.
   */
  function Normalize(color: real, factor: real, gamma: real -> real): (n: U8)
    ensures gamma(0.0) == 0.0 && color * factor == 0.0 ==> n == 0
    ensures gamma(1.0) == 1.0 && color * factor == 1.0 ==> n == 255
  {
    TruncateToU8(gamma(color * factor) * 255.0)
  }

  /** `wavelength_to_rgb`. */
  function WavelengthToRgb(w: U32, gamma: real -> real): (c: Color)
    ensures gamma(0.0) == 0.0 && !Visible(w) ==> c == RGB(0, 0, 0)
    ensures FixesEndpoints(gamma) && Visible(w) && !Tapered(w) ==> c.r == 255 || c.g == 255 || c.b == 255
    ensures gamma(0.0) == 0.0 && Visible(w) ==> c.r == 0 || c.g == 0 || c.b == 0
  {
    var ch := RampChannels(w);
    var f := Factor(w);
    RGB(Normalize(ch.r, f, gamma), Normalize(ch.g, f, gamma), Normalize(ch.b, f, gamma))
  }

  /** Truncation to `u8` never reverses the order of its arguments. */
  lemma TruncateToU8Monotone(a: real, b: real)
    requires a <= b
    ensures TruncateToU8(a) <= TruncateToU8(b)
  {
  }

  /**
   * With a monotone gamma curve, a brighter channel never gives a
   * smaller byte.
   */
  lemma NormalizeMonotone(c1: real, c2: real, factor: real, gamma: real -> real)
    requires MonotoneOnUnit(gamma)
    requires 0.0 <= c1 <= c2 && 0.0 <= factor && c2 * factor <= 1.0
    ensures Normalize(c1, factor, gamma) <= Normalize(c2, factor, gamma)
  {
    assert 0.0 <= c1 * factor <= c2 * factor;
    TruncateToU8Monotone(gamma(c1 * factor) * 255.0, gamma(c2 * factor) * 255.0);
  }

  /** The colour at the lower edge of each band, and red beyond the last edge. */
  function Corner(k: nat): Channels
    requires k <= 6
  {
    match k
    case 0 => Channels(1.0, 0.0, 1.0)  // magenta, at 380
    case 1 => Channels(0.0, 0.0, 1.0)  // blue, at 440
    case 2 => Channels(0.0, 1.0, 1.0)  // cyan, at 490
    case 3 => Channels(0.0, 1.0, 0.0)  // green, at 510
    case 4 => Channels(1.0, 1.0, 0.0)  // yellow, at 580
    case _ => Channels(1.0, 0.0, 0.0)  // red, from 645 on
  }

  /** The band edges: band `k` covers `Edge[k] <= w < Edge[k + 1]`. */
  const Edge: seq<int> := [380, 440, 490, 510, 580, 645, 781]

  function Lerp(a: Channels, b: Channels, t: real): Channels {
    Channels(a.r + (b.r - a.r) * t, a.g + (b.g - a.g) * t, a.b + (b.b - a.b) * t)
  }

  /**
   * An independent description of the ramps: inside band `k` the channels
   * move linearly from corner colour `k` to corner colour `k + 1`.
   */
  lemma RampsInterpolateCorners(w: U32, k: nat)
    requires k < 6 && Edge[k] <= w < Edge[k + 1]
    ensures RampChannels(w) == Lerp(Corner(k), Corner(k + 1), (w - Edge[k]) as real / (Edge[k + 1] - Edge[k]) as real)
  {
  }
}
