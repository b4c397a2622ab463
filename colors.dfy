// RGBA colours and the HSL conversion (nona/src/color.rs).
module Colors {
  import opened Numerics

  datatype Color = Color(r: real, g: real, b: real, a: real)

  /** An unsigned byte, the argument type of `rgba_i`. */
  type Byte = x: int | 0 <= x < 256

  function Rgba(r: real, g: real, b: real, a: real): (c: Color)
    ensures c.r == r && c.g == g && c.b == b && c.a == a
  {
    Color(r, g, b, a)
  }

  /** `rgb`: an opaque colour. */
  function Rgb(r: real, g: real, b: real): (c: Color)
    ensures c == Rgba(r, g, b, 1.0)
  {
    Color(r, g, b, 1.0)
  }

  function InUnit(x: real): bool
  {
    0.0 <= x <= 1.0
  }

  function UnitColor(c: Color): bool
  {
    InUnit(c.r) && InUnit(c.g) && InUnit(c.b) && InUnit(c.a)
  }

  /** `rgba_i`: each byte b becomes b/255, so every component lies in [0,1]
      and the byte 255 gives exactly 1. */
  function RgbaI(r: Byte, g: Byte, b: Byte, a: Byte): (c: Color)
    ensures UnitColor(c)
    ensures c.r * 255.0 == r as real && c.g * 255.0 == g as real
    ensures c.b * 255.0 == b as real && c.a * 255.0 == a as real
  {
    Color(r as real / 255.0, g as real / 255.0, b as real / 255.0, a as real / 255.0)
  }

  /** `rgb_i`: `rgba_i` with an opaque alpha. */
  function RgbI(r: Byte, g: Byte, b: Byte): (c: Color)
    ensures UnitColor(c) && c.a == 1.0
  {
    RgbaI(r, g, b, 255)
  }

  /** `lerp`: the blend (1-u)·self + u·c with u clamped to [0,1]. */
  function Lerp(self: Color, c: Color, u: real): (r: Color)
    ensures u <= 0.0 ==> r == self
    ensures u >= 1.0 ==> r == c
  {
    var u := Clamp(u, 0.0, 1.0);
    var om := 1.0 - u;
    Color(self.r * om + c.r * u, self.g * om + c.g * u, self.b * om + c.b * u, self.a * om + c.a * u)
  }

  /** A blend of two unit colours is a unit colour. */
  lemma {:induction false} LerpStaysInUnit(self: Color, c: Color, u: real)
    requires UnitColor(self) && UnitColor(c)
    ensures UnitColor(Lerp(self, c, u))
  {
    var w := Clamp(u, 0.0, 1.0);
    var l := Lerp(self, c, u);
    BlendUnit(self.r, c.r, w, l.r);
    BlendUnit(self.g, c.g, w, l.g);
    BlendUnit(self.b, c.b, w, l.b);
    BlendUnit(self.a, c.a, w, l.a);
  }

  lemma BlendUnit(x: real, y: real, w: real, z: real)
    requires InUnit(x) && InUnit(y) && 0.0 <= w <= 1.0 && z == x * (1.0 - w) + y * w
    ensures InUnit(z)
  {
    BlendBetween(x, y, w);
  }

  lemma ProductNonnegative(a: real, b: real)
    requires 0.0 <= a && 0.0 <= b
    ensures 0.0 <= a * b
  {
  }

  lemma BlendBetween(x: real, y: real, w: real)
    requires 0.0 <= w <= 1.0
    ensures Min(x, y) <= x * (1.0 - w) + y * w <= Max(x, y)
  {
    if x <= y {
      assert x * (1.0 - w) + y * w == x + (y - x) * w;
      ProductNonnegative(y - x, w);
      ProductNonnegative(y - x, 1.0 - w);
      assert (y - x) * w + (y - x) * (1.0 - w) == y - x;
    } else {
      assert x * (1.0 - w) + y * w == y + (x - y) * (1.0 - w);
      ProductNonnegative(x - y, w);
      ProductNonnegative(x - y, 1.0 - w);
      assert (x - y) * w + (x - y) * (1.0 - w) == x - y;
    }
  }

  /** `h.rem(1.0)` followed by adding 1 to a negative remainder: the
      fractional position of `h` on the colour wheel. */
  function WheelPosition(h: real): (r: real)
    ensures 0.0 <= r < 1.0
    ensures (h - r).Floor as real == h - r
  {
    var whole := Trunc(h);
    var rem := h - whole as real;
    if rem < 0.0 then
      assert h - (rem + 1.0) == (whole - 1) as real;
      rem + 1.0
    else
      assert h - rem == whole as real;
      rem
  }

  /** The wrap `hue` applies to its argument before its piecewise rule. */
  function HueWrap(h: real): (r: real)
    ensures r == h || r == h + 1.0 || r == h - 1.0
    ensures -1.0 <= h <= 2.0 ==> 0.0 <= r <= 1.0
  {
    var h := if h < 0.0 then h + 1.0 else h;
    if h > 1.0 then h - 1.0 else h
  }

  /** `hue`: a piecewise-linear ramp between `m1` and `m2`, so (for an
      argument at most one turn off the wheel) its value lies between them;
      equal endpoints give that value everywhere. */
  function Hue(h: real, m1: real, m2: real): (r: real)
    ensures -1.0 <= h <= 2.0 ==> Min(m1, m2) <= r <= Max(m1, m2)
    ensures m1 == m2 ==> r == m1
  {
    var h := HueWrap(h);
    if h < 1.0 / 6.0 then
      BlendBetween(m1, m2, if 0.0 <= h then h * 6.0 else 0.0);
      m1 + (m2 - m1) * h * 6.0
    else if h < 3.0 / 6.0 then m2
    else if h < 4.0 / 6.0 then
      BlendBetween(m1, m2, (2.0 / 3.0 - h) * 6.0);
      m1 + (m2 - m1) * (2.0 / 3.0 - h) * 6.0
    else m1
  }

  /** The upper of the two levels `hsla` ramps between; with no saturation
      it is the lightness itself. */
  function UpperLevel(s: real, l: real): (m2: real)
    ensures s == 0.0 ==> m2 == l
  {
    if l <= 0.5 then l * (1.0 + s) else l + s - l * s
  }

  /** `hsla`: h is first brought onto the wheel [0,1); s and l are clamped;
      every colour channel is clamped to [0,1]; alpha passes through. */
  function Hsla(h: real, s: real, l: real, a: real): (c: Color)
    ensures InUnit(c.r) && InUnit(c.g) && InUnit(c.b) && c.a == a
    ensures Clamp(s, 0.0, 1.0) == 0.0 ==> c.r == c.g == c.b == Clamp(l, 0.0, 1.0)
  {
    var h := WheelPosition(h);
    var s := Clamp(s, 0.0, 1.0);
    var l := Clamp(l, 0.0, 1.0);
    var m2 := UpperLevel(s, l);
    var m1 := 2.0 * l - m2;
    Color(
      Clamp(Hue(h + 1.0 / 3.0, m1, m2), 0.0, 1.0),
      Clamp(Hue(h, m1, m2), 0.0, 1.0),
      Clamp(Hue(h - 1.0 / 3.0, m1, m2), 0.0, 1.0),
      a)
  }

  /** `hsl`: `hsla` with an opaque alpha. */
  function Hsl(h: real, s: real, l: real): (c: Color)
    ensures c == Hsla(h, s, l, 1.0) && c.a == 1.0
  {
    Hsla(h, s, l, 1.0)
  }
}
