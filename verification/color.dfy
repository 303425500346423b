/**
 * The colour codec of the editor: `#rrggbb` parsing and printing, and the
 * clamped HSV <-> RGB conversions used by the colour picker.  Arithmetic is
 * over `real`; JavaScript's `Math.round` is `floor(x + 0.5)`.
 */
module Color {
  import opened Wrappers
  import opened Numeric

  /** An RGB triple as the codec returns it. */
  datatype Rgb = Rgb(r: int, g: int, b: int)

  /** An HSV triple: hue in degrees, saturation and value in percent. */
  datatype Hsv = Hsv(h: real, s: real, v: real)

  const Black := Rgb(0, 0, 0)

  predicate IsChannel(n: int) { 0 <= n <= 255 }

  predicate IsRgb(c: Rgb) { IsChannel(c.r) && IsChannel(c.g) && IsChannel(c.b) }

  /** The largest channel. */
  function Brightest(c: Rgb): (m: int)
    ensures (m == c.r || m == c.g || m == c.b) && c.r <= m && c.g <= m && c.b <= m
  {
    if c.r >= c.g && c.r >= c.b then c.r else if c.g >= c.b then c.g else c.b
  }

  /** The smallest channel. */
  function Darkest(c: Rgb): (m: int)
    ensures (m == c.r || m == c.g || m == c.b) && m <= c.r && m <= c.g && m <= c.b
  {
    if c.r <= c.g && c.r <= c.b then c.r else if c.g <= c.b then c.g else c.b
  }

  // ---------------------------------------------------------------------------
  // Hex digits

  /** `[a-f\d]` under the regex's `i` flag: ASCII digits and a-f in either case. */
  predicate IsHexDigit(c: char) {
    ('0' <= c <= '9') || ('a' <= c <= 'f') || ('A' <= c <= 'F')
  }

  /** The value of one hex digit, as `parseInt(_, 16)` reads it. */
  function DigitValue(c: char): (d: nat)
    requires IsHexDigit(c)
    ensures d < 16
  {
    if '0' <= c <= '9' then c as nat - '0' as nat
    else if 'a' <= c <= 'f' then c as nat - 'a' as nat + 10
    else c as nat - 'A' as nat + 10
  }

  /** The lower-case digit `Number.prototype.toString(16)` prints for d. */
  function HexChar(d: nat): (c: char)
    requires d < 16
    ensures IsHexDigit(c) && !('A' <= c <= 'F') && DigitValue(c) == d
  {
    if d < 10 then ('0' as nat + d) as char else ('a' as nat + d - 10) as char
  }

  // ---------------------------------------------------------------------------
  // hexToRgb

  /** What `/^#?([a-f\d]{2})([a-f\d]{2})([a-f\d]{2})$/i` accepts: six hex digits, optionally after one `#`. */
  predicate IsHexColor(s: string) {
    || (|s| == 6 && forall k :: 0 <= k < 6 ==> IsHexDigit(s[k]))
    || (|s| == 7 && s[0] == '#' && forall k :: 1 <= k < 7 ==> IsHexDigit(s[k]))
  }

  /** Two hex digits read as one byte. */
  function PairValue(hi: char, lo: char): (n: int)
    requires IsHexDigit(hi) && IsHexDigit(lo)
    ensures IsChannel(n)
  {
    DigitValue(hi) * 16 + DigitValue(lo)
  }

  /** The regex match: the three captured channels, or None when the string does not match. */
  function ParseHex(s: string): (c: Option<Rgb>)
    ensures c.Some? <==> IsHexColor(s)
    ensures c.Some? ==> IsRgb(c.value)
  {
    var body := if |s| > 0 && s[0] == '#' then s[1..] else s;
    if |body| == 6 && IsHexDigit(body[0]) && IsHexDigit(body[1]) && IsHexDigit(body[2])
       && IsHexDigit(body[3]) && IsHexDigit(body[4]) && IsHexDigit(body[5])
    then
      assert IsHexColor(s) by {
        if s[0] == '#' { assert forall k :: 1 <= k < 7 ==> s[k] == body[k - 1]; }
      }
      Some(Rgb(PairValue(body[0], body[1]), PairValue(body[2], body[3]), PairValue(body[4], body[5])))
    else
      assert !IsHexColor(s) by {
        if |s| == 7 && s[0] == '#' {
          assert forall k :: 1 <= k < 7 ==> s[k] == body[k - 1];
        } else if |s| == 6 {
          assert body == s || (s[0] == '#' && !IsHexDigit(s[0]));
        }
      }
      None
  }

  /** hexToRgb: the parsed channels, or black when the string is not a six-digit hex colour. */
  function HexToRgb(s: string): (c: Rgb)
    ensures IsRgb(c)
    ensures !IsHexColor(s) ==> c == Black
  {
    ParseHex(s).GetOr(Black)
  }

  // ---------------------------------------------------------------------------
  // rgbToHex

  /** `n.toString(16)`: the lower-case hex numeral of n, most significant digit first. */
  function HexString(n: nat): (s: string)
    ensures |s| >= 1
  {
    if n < 16 then [HexChar(n)] else HexString(n / 16) + [HexChar(n % 16)]
  }

  /** Appending a digit to a non-zero number appends its character to the numeral. */
  lemma HexStringAppend(n: nat, d: nat, m: nat)
    requires n >= 1 && d < 16 && m == n * 16 + d
    ensures HexString(m) == HexString(n) + [HexChar(d)]
  {
    assert m / 16 == n && m % 16 == d;
  }

  /** rgbToHex: `#` then the hex numeral of 2^24 + r*2^16 + g*2^8 + b without its leading digit. */
  function RgbToHex(r: nat, g: nat, b: nat): (s: string)
  {
    var numeral := HexString(0x100_0000 + r * 0x1_0000 + g * 0x100 + b);
    "#" + numeral[1..]
  }

  /** The six digits rgbToHex prints for in-range channels: two per channel, high digit first. */
  function HexDigits(r: nat, g: nat, b: nat): (s: string)
    requires IsChannel(r) && IsChannel(g) && IsChannel(b)
    ensures |s| == 6
  {
    [HexChar(r / 16), HexChar(r % 16), HexChar(g / 16), HexChar(g % 16), HexChar(b / 16), HexChar(b % 16)]
  }

  /** The numeral of 1 followed by six digits (Horner steps n1..n6) is `1` and those six characters. */
  lemma SixDigitNumeral(d1: nat, d2: nat, d3: nat, d4: nat, d5: nat, d6: nat,
                        n1: nat, n2: nat, n3: nat, n4: nat, n5: nat, n6: nat)
    requires d1 < 16 && d2 < 16 && d3 < 16 && d4 < 16 && d5 < 16 && d6 < 16
    requires n1 == 16 + d1 && n2 == n1 * 16 + d2 && n3 == n2 * 16 + d3
    requires n4 == n3 * 16 + d4 && n5 == n4 * 16 + d5 && n6 == n5 * 16 + d6
    ensures HexString(n6) == ['1', HexChar(d1), HexChar(d2), HexChar(d3), HexChar(d4), HexChar(d5), HexChar(d6)]
  {
    HexStringAppend(1, d1, n1);
    HexStringAppend(n1, d2, n2);
    HexStringAppend(n2, d3, n3);
    HexStringAppend(n3, d4, n4);
    HexStringAppend(n4, d5, n5);
    HexStringAppend(n5, d6, n6);
  }

  /** For channels in 0..255 the serialiser yields `#` and exactly six lower-case digits, r, g, b in order. */
  lemma RgbToHexLayout(r: nat, g: nat, b: nat)
    requires IsChannel(r) && IsChannel(g) && IsChannel(b)
    ensures RgbToHex(r, g, b) == "#" + HexDigits(r, g, b)
    ensures |RgbToHex(r, g, b)| == 7
    ensures forall k :: 1 <= k < 7 ==> IsHexDigit(RgbToHex(r, g, b)[k]) && !('A' <= RgbToHex(r, g, b)[k] <= 'F')
  {
    var r1, r0, g1, g0, b1, b0 := r / 16, r % 16, g / 16, g % 16, b / 16, b % 16;
    var n1 := 16 + r1;
    var n2 := n1 * 16 + r0;
    var n3 := n2 * 16 + g1;
    var n4 := n3 * 16 + g0;
    var n5 := n4 * 16 + b1;
    var n6 := 0x100_0000 + r * 0x1_0000 + g * 0x100 + b;
    SixDigitNumeral(r1, r0, g1, g0, b1, b0, n1, n2, n3, n4, n5, n6);
  }

  /** hexToRgb(rgbToHex(r, g, b)) gives the channels back. */
  lemma HexRoundTrip(r: nat, g: nat, b: nat)
    requires IsChannel(r) && IsChannel(g) && IsChannel(b)
    ensures ParseHex(RgbToHex(r, g, b)) == Some(Rgb(r, g, b))
    ensures HexToRgb(RgbToHex(r, g, b)) == Rgb(r, g, b)
  {
    RgbToHexLayout(r, g, b);
    ParseDigits(r, g, b);
  }

  /** A channel's two printed digits read back as the channel. */
  lemma ChannelDigits(n: nat)
    requires IsChannel(n)
    ensures PairValue(HexChar(n / 16), HexChar(n % 16)) == n
  { }

  /** `#` and the six digits of r, g, b parse as r, g, b. */
  lemma ParseDigits(r: nat, g: nat, b: nat)
    requires IsChannel(r) && IsChannel(g) && IsChannel(b)
    ensures ParseHex("#" + HexDigits(r, g, b)) == Some(Rgb(r, g, b))
  {
    var s := "#" + HexDigits(r, g, b);
    assert s[1..] == HexDigits(r, g, b);
    ChannelDigits(r);
    ChannelDigits(g);
    ChannelDigits(b);
  }

  /** The digits of a hex colour after its optional `#`. */
  function Digits(s: string): (d: string)
    requires IsHexColor(s)
    ensures |d| == 6 && forall k :: 0 <= k < 6 ==> IsHexDigit(d[k])
  {
    if |s| == 7 then s[1..] else s
  }

  /** The lower-case form of a hex digit. */
  function LowerDigit(c: char): (l: char)
    requires IsHexDigit(c)
    ensures IsHexDigit(l) && DigitValue(l) == DigitValue(c)
  {
    if 'A' <= c <= 'F' then (c as int - 'A' as int + 'a' as int) as char else c
  }

  /** Printing a digit's value gives the digit in lower case. */
  lemma HexCharOfDigit(c: char)
    requires IsHexDigit(c)
    ensures HexChar(DigitValue(c)) == LowerDigit(c)
  { }

  /** Two digits read as a byte split back into the same two digit values. */
  lemma PairDigits(hi: char, lo: char)
    requires IsHexDigit(hi) && IsHexDigit(lo)
    ensures PairValue(hi, lo) / 16 == DigitValue(hi) && PairValue(hi, lo) % 16 == DigitValue(lo)
  { }

  /** Printing the byte two digits encode gives the two digits back in lower case. */
  lemma PrintPair(hi: char, lo: char)
    requires IsHexDigit(hi) && IsHexDigit(lo)
    ensures HexChar(PairValue(hi, lo) / 16) == LowerDigit(hi) && HexChar(PairValue(hi, lo) % 16) == LowerDigit(lo)
  {
    PairDigits(hi, lo);
    HexCharOfDigit(hi);
    HexCharOfDigit(lo);
  }

  /** Printing what hexToRgb parsed gives back the accepted string in lower case, always with `#`. */
  lemma ParsePrintLowercase(s: string)
    requires IsHexColor(s)
    ensures var c := HexToRgb(s);
      RgbToHex(c.r, c.g, c.b) == "#" + seq(6, k requires 0 <= k < 6 => LowerDigit(Digits(s)[k]))
  {
    var d := Digits(s);
    var c := HexToRgb(s);
    assert c == Rgb(PairValue(d[0], d[1]), PairValue(d[2], d[3]), PairValue(d[4], d[5]));
    PrintDigits(d);
  }

  /** The three bytes six digits encode are written out as `#` and those digits in lower case. */
  lemma PrintDigits(d: string)
    requires |d| == 6 && forall k :: 0 <= k < 6 ==> IsHexDigit(d[k])
    ensures RgbToHex(PairValue(d[0], d[1]), PairValue(d[2], d[3]), PairValue(d[4], d[5]))
      == "#" + seq(6, k requires 0 <= k < 6 => LowerDigit(d[k]))
  {
    var r, g, b := PairValue(d[0], d[1]), PairValue(d[2], d[3]), PairValue(d[4], d[5]);
    RgbToHexLayout(r, g, b);
    PrintPair(d[0], d[1]);
    PrintPair(d[2], d[3]);
    PrintPair(d[4], d[5]);
    assert HexDigits(r, g, b) == seq(6, k requires 0 <= k < 6 => LowerDigit(d[k]));
  }

  // ---------------------------------------------------------------------------
  // rgbToHsv

  /** rgbToHsv: channels scaled to [0, 1]; hue from the sector of the largest channel (r, then g, then b). */
  function RgbToHsv(r0: real, g0: real, b0: real): (c: Hsv)
  {
    var r, g, b := r0 / 255.0, g0 / 255.0, b0 / 255.0;
    var max := Max(r, Max(g, b));
    var min := Min(r, Min(g, b));
    var d := max - min;
    var s := if max == 0.0 then 0.0 else d / max;
    var h :=
      if max == min then 0.0
      else if max == r then ((g - b) / d + (if g < b then 6.0 else 0.0)) / 6.0
      else if max == g then ((b - r) / d + 2.0) / 6.0
      else ((r - g) / d + 4.0) / 6.0;
    Hsv(h * 360.0, s * 100.0, max * 100.0)
  }

  /** A ratio of a difference to a spread that bounds it lies in [-1, 1]. */
  lemma SpreadRatio(a: real, d: real)
    requires d > 0.0 && -d <= a <= d
    ensures -1.0 <= a / d <= 1.0
  { }

  lemma RatioBelowOne(a: real, d: real)
    requires d > 0.0 && a < d
    ensures a / d < 1.0
  { }

  /** For channels in [0, 255]: saturation and value in [0, 100], hue in [0, 360); grey has hue 0, black has saturation 0. */
  lemma RgbToHsvRanges(r0: real, g0: real, b0: real)
    requires 0.0 <= r0 <= 255.0 && 0.0 <= g0 <= 255.0 && 0.0 <= b0 <= 255.0
    ensures var c := RgbToHsv(r0, g0, b0);
      && 0.0 <= c.h < 360.0 && 0.0 <= c.s <= 100.0 && 0.0 <= c.v <= 100.0
      && (r0 == g0 == b0 ==> c.h == 0.0)
      && (r0 == 0.0 && g0 == 0.0 && b0 == 0.0 ==> c.s == 0.0 && c.v == 0.0)
  {
    var r, g, b := r0 / 255.0, g0 / 255.0, b0 / 255.0;
    var max := Max(r, Max(g, b));
    var min := Min(r, Min(g, b));
    var d := max - min;
    if max != 0.0 {
      RatioInUnitInterval(d, max);
    }
    if max != min {
      if max == r {
        SpreadRatio(g - b, d);
        if g < b {
          assert (g - b) / d < 0.0;
        }
      } else if max == g {
        SpreadRatio(b - r, d);
      } else {
        SpreadRatio(r - g, d);
        assert r - g < d by {
          assert max == b && b > r && b > g;
        }
        RatioBelowOne(r - g, d);
      }
    }
  }

  // ---------------------------------------------------------------------------
  // hsvToRgb

  /** `Math.max(lo, Math.min(hi, x))`. */
  function Clamp(x: real, lo: real, hi: real): (y: real)
    requires lo <= hi
    ensures lo <= y <= hi
    ensures lo <= x <= hi ==> y == x
  {
    Max(lo, Min(hi, x))
  }

  /** `Math.round`: halves round up. */
  function Round(x: real): (n: int)
    ensures x - 0.5 < n as real <= x + 0.5
  {
    (x + 0.5).Floor
  }

  lemma RoundMonotone(x: real, y: real)
    requires x <= y
    ensures Round(x) <= Round(y)
  { }

  /** A unit fraction scaled to a channel rounds into 0..255. */
  lemma RoundChannel(x: real)
    requires 0.0 <= x <= 1.0
    ensures IsChannel(Round(x * 255.0))
  {
    MulAtMost(x, 255.0);
  }

  /**
   * `Math.floor(h)` for the scaled hue h in [0, 6], as the number the switch compares.
   * Written as the sector whose start lies at or below h; FloorSectorIsFloor ties it to `.Floor`.
   */
  function FloorSector(hs: real): (i: real)
    requires 0.0 <= hs <= 6.0
    ensures i <= hs < i + 1.0
    ensures i == 0.0 || i == 1.0 || i == 2.0 || i == 3.0 || i == 4.0 || i == 5.0 || i == 6.0
  {
    if hs < 1.0 then 0.0 else if hs < 2.0 then 1.0 else if hs < 3.0 then 2.0
    else if hs < 4.0 then 3.0 else if hs < 5.0 then 4.0 else if hs < 6.0 then 5.0 else 6.0
  }

  lemma FloorSectorIsFloor(hs: real)
    requires 0.0 <= hs <= 6.0
    ensures FloorSector(hs) == hs.Floor as real
  { }

  /** The switch of hsvToRgb on the sector i: which channel takes v, p, q or t; sector 6 (h = 360) takes the default. */
  function Sector(i: real, v: real, p: real, q: real, t: real): (c: (real, real, real))
  {
    if i == 0.0 then (v, t, p)
    else if i == 1.0 then (q, v, p)
    else if i == 2.0 then (p, v, t)
    else if i == 3.0 then (p, q, v)
    else if i == 4.0 then (t, p, v)
    else (v, p, q)
  }

  /** hsvToRgb's mixes p = v(1-s), q = v(1-sf) and t = v(1-s(1-f)) placed by the sector i. */
  function Mixes(i: real, f: real, s: real, v: real): (c: (real, real, real))
  {
    Sector(i, v, v * (1.0 - s), v * (1.0 - s * f), v * (1.0 - s * (1.0 - f)))
  }

  /** Whichever the sector, v is the largest channel and p the smallest, when q and t lie between them. */
  lemma SectorExtremes(i: real, v: real, p: real, q: real, t: real)
    requires p <= q <= v && p <= t <= v
    ensures var u := Sector(i, v, p, q, t);
      Max(u.0, Max(u.1, u.2)) == v && Min(u.0, Min(u.1, u.2)) == p
  { }

  /** With v, s in [0, 1] and f in [0, 1]: p = v(1-s) is the least mix, q = v(1-sf) and t = v(1-s(1-f)) lie between p and v. */
  lemma MixesBetween(v: real, s: real, f: real, p: real, q: real, t: real)
    requires 0.0 <= v <= 1.0 && 0.0 <= s <= 1.0 && 0.0 <= f <= 1.0
    requires p == v * (1.0 - s) && q == v * (1.0 - s * f) && t == v * (1.0 - s * (1.0 - f))
    ensures 0.0 <= p <= q <= v && p <= t <= v
  {
    MulAtMost(f, s);
    MulAtMost(1.0 - f, s);
    MulNonneg(v, s - s * f);
    MulNonneg(v, s * f);
    MulNonneg(v, s - s * (1.0 - f));
    MulNonneg(v, s * (1.0 - f));
    MulNonneg(v, 1.0 - s);
  }

  /** In every sector the largest mix is v and the smallest v(1 - s). */
  lemma MixesExtremes(i: real, f: real, s: real, v: real)
    requires 0.0 <= v <= 1.0 && 0.0 <= s <= 1.0 && 0.0 <= f <= 1.0
    ensures var u := Mixes(i, f, s, v);
      Max(u.0, Max(u.1, u.2)) == v && Min(u.0, Min(u.1, u.2)) == v * (1.0 - s)
  {
    var p, q, t := v * (1.0 - s), v * (1.0 - s * f), v * (1.0 - s * (1.0 - f));
    MixesBetween(v, s, f, p, q, t);
    SectorExtremes(i, v, p, q, t);
  }

  /** hsvToRgb after clamping, on hue / 60, saturation and value in [0, 1]: grey when saturation is 0. */
  function UnitMix(hs: real, sc: real, vc: real): (c: (real, real, real))
    requires 0.0 <= hs <= 6.0
  {
    if sc == 0.0 then (vc, vc, vc) else Mixes(FloorSector(hs), hs - FloorSector(hs), sc, vc)
  }

  /** The three channels of hsvToRgb in [0, 1], before rounding. */
  function HsvUnit(h: real, s: real, v: real): (c: (real, real, real))
  {
    UnitMix(Clamp(h, 0.0, 360.0) / 60.0, Clamp(s, 0.0, 100.0) / 100.0, Clamp(v, 0.0, 100.0) / 100.0)
  }

  /** hsvToRgb: clamp, mix in [0, 1], then round each channel of the 0..255 scale. */
  function HsvToRgb(h: real, s: real, v: real): (c: Rgb)
  {
    var u := HsvUnit(h, s, v);
    Rgb(Round(u.0 * 255.0), Round(u.1 * 255.0), Round(u.2 * 255.0))
  }

  /** The largest unrounded channel is the value. */
  lemma UnitMixBrightest(hs: real, sc: real, vc: real)
    requires 0.0 <= hs <= 6.0 && 0.0 <= sc <= 1.0 && 0.0 <= vc <= 1.0
    ensures var u := UnitMix(hs, sc, vc); Max(u.0, Max(u.1, u.2)) == vc
  {
    if sc != 0.0 {
      MixesExtremes(FloorSector(hs), hs - FloorSector(hs), sc, vc);
    }
  }

  /** The smallest unrounded channel is value times (1 - saturation). */
  lemma UnitMixDarkest(hs: real, sc: real, vc: real)
    requires 0.0 <= hs <= 6.0 && 0.0 <= sc <= 1.0 && 0.0 <= vc <= 1.0
    ensures var u := UnitMix(hs, sc, vc); Min(u.0, Min(u.1, u.2)) == vc * (1.0 - sc)
  {
    if sc != 0.0 {
      MixesExtremes(FloorSector(hs), hs - FloorSector(hs), sc, vc);
    }
  }

  /** The clamped inputs of hsvToRgb: hue / 60 in [0, 6], saturation and value in [0, 1]. */
  lemma ClampedUnits(h: real, s: real, v: real)
    ensures 0.0 <= Clamp(h, 0.0, 360.0) / 60.0 <= 6.0
    ensures 0.0 <= Clamp(s, 0.0, 100.0) / 100.0 <= 1.0 && 0.0 <= Clamp(v, 0.0, 100.0) / 100.0 <= 1.0
  { }

  /** The largest unrounded channel of hsvToRgb is the clamped value. */
  lemma HsvUnitBrightest(h: real, s: real, v: real)
    ensures var u := HsvUnit(h, s, v);
      Max(u.0, Max(u.1, u.2)) == Clamp(v, 0.0, 100.0) / 100.0
  {
    ClampedUnits(h, s, v);
    UnitMixBrightest(Clamp(h, 0.0, 360.0) / 60.0, Clamp(s, 0.0, 100.0) / 100.0, Clamp(v, 0.0, 100.0) / 100.0);
  }

  /** For inputs inside the clamp ranges, the smallest unrounded channel is v/100 times (1 - s/100). */
  lemma HsvUnitDarkest(h: real, s: real, v: real)
    requires 0.0 <= h <= 360.0 && 0.0 <= s <= 100.0 && 0.0 <= v <= 100.0
    ensures var u := HsvUnit(h, s, v);
      Min(u.0, Min(u.1, u.2)) == v / 100.0 * (1.0 - s / 100.0)
  {
    ClampsInRange(h, s, v);
    UnitMixDarkest(h / 60.0, s / 100.0, v / 100.0);
  }

  /** Inside the clamp ranges hsvToRgb's unrounded triple is UnitMix of the scaled inputs. */
  lemma ClampsInRange(h: real, s: real, v: real)
    requires 0.0 <= h <= 360.0 && 0.0 <= s <= 100.0 && 0.0 <= v <= 100.0
    ensures HsvUnit(h, s, v) == UnitMix(h / 60.0, s / 100.0, v / 100.0)
  { }

  /** Clamping is the first thing hsvToRgb does: clamped inputs give the same colour. */
  lemma HsvToRgbClamps(h: real, s: real, v: real)
    ensures HsvToRgb(h, s, v) == HsvToRgb(Clamp(h, 0.0, 360.0), Clamp(s, 0.0, 100.0), Clamp(v, 0.0, 100.0))
  {
    var hc, sc, vc := Clamp(h, 0.0, 360.0), Clamp(s, 0.0, 100.0), Clamp(v, 0.0, 100.0);
    assert Clamp(hc, 0.0, 360.0) == hc && Clamp(sc, 0.0, 100.0) == sc && Clamp(vc, 0.0, 100.0) == vc;
    assert HsvUnit(h, s, v) == HsvUnit(hc, sc, vc);
  }

  /** Every channel of the unrounded triple lies in [0, 1]. */
  lemma UnitMixInRange(hs: real, sc: real, vc: real)
    requires 0.0 <= hs <= 6.0 && 0.0 <= sc <= 1.0 && 0.0 <= vc <= 1.0
    ensures var u := UnitMix(hs, sc, vc);
      0.0 <= u.0 <= 1.0 && 0.0 <= u.1 <= 1.0 && 0.0 <= u.2 <= 1.0
  {
    UnitMixBrightest(hs, sc, vc);
    UnitMixDarkestNonneg(hs, sc, vc);
    BetweenExtremes(UnitMix(hs, sc, vc));
  }

  /** The smallest unrounded channel is not negative. */
  lemma UnitMixDarkestNonneg(hs: real, sc: real, vc: real)
    requires 0.0 <= hs <= 6.0 && 0.0 <= sc <= 1.0 && 0.0 <= vc <= 1.0
    ensures var u := UnitMix(hs, sc, vc); Min(u.0, Min(u.1, u.2)) >= 0.0
  {
    UnitMixDarkest(hs, sc, vc);
    MulNonneg(vc, 1.0 - sc);
  }

  /** Three numbers whose smallest is at least 0 and whose largest is at most 1 all lie in [0, 1]. */
  lemma BetweenExtremes(u: (real, real, real))
    requires Min(u.0, Min(u.1, u.2)) >= 0.0 && Max(u.0, Max(u.1, u.2)) <= 1.0
    ensures 0.0 <= u.0 <= 1.0 && 0.0 <= u.1 <= 1.0 && 0.0 <= u.2 <= 1.0
  { }

  lemma HsvUnitInRange(h: real, s: real, v: real)
    ensures var u := HsvUnit(h, s, v);
      0.0 <= u.0 <= 1.0 && 0.0 <= u.1 <= 1.0 && 0.0 <= u.2 <= 1.0
  {
    ClampedUnits(h, s, v);
    UnitMixInRange(Clamp(h, 0.0, 360.0) / 60.0, Clamp(s, 0.0, 100.0) / 100.0, Clamp(v, 0.0, 100.0) / 100.0);
  }

  /** Every channel hsvToRgb returns is an integer in 0..255. */
  lemma HsvToRgbChannels(h: real, s: real, v: real)
    ensures IsRgb(HsvToRgb(h, s, v))
  {
    var u := HsvUnit(h, s, v);
    HsvUnitInRange(h, s, v);
    RoundChannel(u.0);
    RoundChannel(u.1);
    RoundChannel(u.2);
  }

  /** Inside the clamp ranges the brightest channel is the rounded value, the darkest the rounded value times (1 - saturation). */
  lemma HsvToRgbExtremes(h: real, s: real, v: real)
    requires 0.0 <= h <= 360.0 && 0.0 <= s <= 100.0 && 0.0 <= v <= 100.0
    ensures var c := HsvToRgb(h, s, v);
      && Brightest(c) == Round(v / 100.0 * 255.0)
      && Darkest(c) == Round(v / 100.0 * (1.0 - s / 100.0) * 255.0)
  {
    var u := HsvUnit(h, s, v);
    HsvUnitBrightest(h, s, v);
    HsvUnitDarkest(h, s, v);
    ScaledRoundMonotone(u.0, u.1, u.2);
  }

  /** Rounding the 0..255 scale commutes with taking the largest and smallest of three. */
  lemma ScaledRoundMonotone(a: real, b: real, c: real)
    ensures Brightest(Rgb(Round(a * 255.0), Round(b * 255.0), Round(c * 255.0))) == Round(Max(a, Max(b, c)) * 255.0)
    ensures Darkest(Rgb(Round(a * 255.0), Round(b * 255.0), Round(c * 255.0))) == Round(Min(a, Min(b, c)) * 255.0)
  {
    ScaleMonotone(a, b);
    ScaleMonotone(b, c);
    ScaleMonotone(a, c);
    ScaleMonotone(b, a);
    ScaleMonotone(c, b);
    ScaleMonotone(c, a);
  }

  lemma ScaleMonotone(a: real, b: real)
    ensures a <= b ==> Round(a * 255.0) <= Round(b * 255.0)
  {
    if a <= b {
      RoundMonotone(a * 255.0, b * 255.0);
    }
  }

  /** With saturation 0 after clamping, all three channels are the rounded value. */
  lemma HsvToRgbGrey(h: real, s: real, v: real)
    requires s <= 0.0
    ensures var c := HsvToRgb(h, s, v);
      c.r == c.g == c.b == Round(Clamp(v, 0.0, 100.0) / 100.0 * 255.0)
  { }
}
