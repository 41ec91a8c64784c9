/** The height-to-colour mapping used to tint printed paths. */
module Color {
  import opened Util

  /** JavaScript's ToInt32 on an integer: the value modulo 2^32, read as a
      signed 32-bit number. Every JavaScript bitwise operator first applies it. */
  function ToInt32(x: int): (r: int)
    ensures -0x8000_0000 <= r < 0x8000_0000
    ensures (x - r) % 0x1_0000_0000 == 0
    ensures -0x8000_0000 <= x < 0x8000_0000 ==> r == x
  {
    var m := x % 0x1_0000_0000;
    if m < 0x8000_0000 then m else m - 0x1_0000_0000
  }

  function Pow2(k: nat): nat
  {
    if k == 0 then 1 else 2 * Pow2(k - 1)
  }

  /** JavaScript's `x << k` on an integer `x`, for a shift `k` below 32: the
      product wraps around into a signed 32-bit number. */
  function ShiftLeft(x: int, k: nat): (r: int)
    requires k < 32
    ensures -0x8000_0000 <= r < 0x8000_0000
  {
    ToInt32(x * Pow2(k))
  }

  /** `x << k` multiplies exactly when the product fits in 32 signed bits. */
  lemma ShiftLeftSmall(x: int, k: nat)
    requires k < 32
    requires -0x8000_0000 <= x * Pow2(k) < 0x8000_0000
    ensures ShiftLeft(x, k) == x * Pow2(k)
  {
  }

  /** The red byte of a packed colour, `(c & 0xff0000) >> 16`. The mask clears
      the sign bit, so the result is bits 16 to 23 of the colour's 32-bit image,
      which for any integer `c` is `(c / 0x10000) % 0x100`. */
  function Red(c: int): (r: int)
    ensures 0 <= r < 0x100
  {
    (c / 0x1_0000) % 0x100
  }

  /** The green byte, `(c & 0x00ff00) >> 8`. */
  function Green(c: int): (r: int)
    ensures 0 <= r < 0x100
  {
    (c / 0x100) % 0x100
  }

  /** The blue byte, `c & 0x0000ff`. */
  function Blue(c: int): (r: int)
    ensures 0 <= r < 0x100
  {
    c % 0x100
  }

  /** A 24-bit colour from its three bytes. */
  function Pack(r: int, g: int, b: int): int
  {
    r * 0x1_0000 + g * 0x100 + b
  }

  predicate IsByte(x: int)
  {
    0 <= x < 0x100
  }

  /** Unpacking a packed colour gives back its bytes. */
  lemma UnpackPack(r: int, g: int, b: int)
    requires IsByte(r) && IsByte(g) && IsByte(b)
    ensures Red(Pack(r, g, b)) == r
    ensures Green(Pack(r, g, b)) == g
    ensures Blue(Pack(r, g, b)) == b
    ensures 0 <= Pack(r, g, b) < 0x100_0000
  {
    var c := Pack(r, g, b);
    assert c / 0x1_0000 == r;
    assert c / 0x100 == r * 0x100 + g;
  }

  /** Packing the bytes of any integer gives back its low 24 bits. */
  lemma PackUnpack(c: int)
    ensures Pack(Red(c), Green(c), Blue(c)) == c % 0x100_0000
  {
    var b, q := c % 0x100, c / 0x100;
    var g, h := q % 0x100, q / 0x100;
    ModUnique(c, h, g * 0x100 + b, 0x1_0000);
    var r, t := h % 0x100, h / 0x100;
    ModUnique(c, t, Pack(r, g, b), 0x100_0000);
  }

  /** The calibration of a colour interpolator: the value range and, per
      channel, the start and end bytes. */
  datatype Gradient = Gradient(
    minValue: real, maxValue: real,
    rStart: int, rEnd: int,
    gStart: int, gEnd: int,
    bStart: int, bEnd: int)

  predicate ByteChannels(g: Gradient)
  {
    IsByte(g.rStart) && IsByte(g.rEnd) && IsByte(g.gStart) && IsByte(g.gEnd)
    && IsByte(g.bStart) && IsByte(g.bEnd)
  }

  /** One channel at `value`: `floor(p * (end - start) + start)` with
      `p = (value - minValue) / (maxValue - minValue)`. Nothing is clamped:
      outside the value range the channel extrapolates linearly. */
  function Lerp(g: Gradient, value: real, start: int, end: int): int
    requires g.maxValue != g.minValue
  {
    (((value - g.minValue) / (g.maxValue - g.minValue)) * (end - start) as real + start as real).Floor
  }

  /** The packed colour at `value`, `(r << 16) + (g << 8) + b`. With an empty
      value range the JavaScript division yields NaN or an infinity, which
      the unshifted blue term carries into the sum: no finite colour (`None`). */
  function ColorAt(g: Gradient, value: real): (r: Option<int>)
    ensures r.Some? <==> g.maxValue != g.minValue
  {
    if g.maxValue == g.minValue then None
    else Some(ShiftLeft(Lerp(g, value, g.rStart, g.rEnd), 16)
              + ShiftLeft(Lerp(g, value, g.gStart, g.gEnd), 8)
              + Lerp(g, value, g.bStart, g.bEnd))
  }

  /** At the two ends of the value range a channel takes its start and its end. */
  lemma LerpEndpoints(g: Gradient, start: int, end: int)
    requires g.maxValue != g.minValue
    ensures Lerp(g, g.minValue, start, end) == start
    ensures Lerp(g, g.maxValue, start, end) == end
  {
    var d := (end - start) as real;
    assert (g.minValue - g.minValue) / (g.maxValue - g.minValue) == 0.0;
    assert 0.0 * d + start as real == start as real;
    assert (g.maxValue - g.minValue) / (g.maxValue - g.minValue) == 1.0;
  }

  /** With an increasing value range, a channel moves monotonically in the
      direction of `end - start`, also outside the range. */
  lemma LerpMonotone(g: Gradient, v1: real, v2: real, start: int, end: int)
    requires g.maxValue > g.minValue
    requires v1 <= v2
    ensures start <= end ==> Lerp(g, v1, start, end) <= Lerp(g, v2, start, end)
    ensures start >= end ==> Lerp(g, v1, start, end) >= Lerp(g, v2, start, end)
  {
    var w := g.maxValue - g.minValue;
    var p1 := (v1 - g.minValue) / w;
    var p2 := (v2 - g.minValue) / w;
    assert p1 <= p2 by { DivMonotone(v1 - g.minValue, v2 - g.minValue, w); }
    var d := (end - start) as real;
    if start <= end {
      MulMonotone(p1, p2, d);
    } else {
      MulMonotone(p1, p2, -d);
    }
  }

  lemma DivMonotone(a: real, b: real, w: real)
    requires a <= b && w > 0.0
    ensures a / w <= b / w
  {
    assert b / w - a / w == (b - a) / w;
  }

  lemma MulMonotone(p1: real, p2: real, d: real)
    requires p1 <= p2 && d >= 0.0
    ensures p1 * d <= p2 * d
  {
    assert p2 * d - p1 * d == (p2 - p1) * d;
  }

  /** Inside the value range a channel stays between its start and its end,
      so byte channels give a byte. */
  lemma LerpBetween(g: Gradient, value: real, start: int, end: int)
    requires g.maxValue > g.minValue
    requires g.minValue <= value <= g.maxValue
    ensures start <= end ==> start <= Lerp(g, value, start, end) <= end
    ensures start >= end ==> end <= Lerp(g, value, start, end) <= start
  {
    LerpEndpoints(g, start, end);
    LerpMonotone(g, g.minValue, value, start, end);
    LerpMonotone(g, value, g.maxValue, start, end);
  }

  /** `getColor(minValue)` is the packed start colour
      `(rStart << 16) + (gStart << 8) + bStart`, and `getColor(maxValue)`
      the packed end colour. */
  lemma ColorAtEnds(g: Gradient)
    requires g.maxValue != g.minValue
    requires ByteChannels(g)
    ensures ColorAt(g, g.minValue) == Some(Pack(g.rStart, g.gStart, g.bStart))
    ensures ColorAt(g, g.maxValue) == Some(Pack(g.rEnd, g.gEnd, g.bEnd))
  {
    LerpEndpoints(g, g.rStart, g.rEnd);
    LerpEndpoints(g, g.gStart, g.gEnd);
    LerpEndpoints(g, g.bStart, g.bEnd);
    ShiftBytes(g.rStart, g.gStart);
    ShiftBytes(g.rEnd, g.gEnd);
  }

  lemma ShiftBytes(r: int, gr: int)
    requires IsByte(r) && IsByte(gr)
    ensures ShiftLeft(r, 16) == r * 0x1_0000
    ensures ShiftLeft(gr, 8) == gr * 0x100
  {
    assert Pow2(8) == 0x100;
    assert Pow2(16) == 0x1_0000;
  }

  /** Inside an increasing value range the colour is a 24-bit colour whose
      three bytes are the three interpolated channels. */
  lemma ColorAtInRange(g: Gradient, value: real)
    requires g.maxValue > g.minValue
    requires g.minValue <= value <= g.maxValue
    requires ByteChannels(g)
    ensures ColorAt(g, value).Some?
    ensures 0 <= ColorAt(g, value).value < 0x100_0000
    ensures Red(ColorAt(g, value).value) == Lerp(g, value, g.rStart, g.rEnd)
    ensures Green(ColorAt(g, value).value) == Lerp(g, value, g.gStart, g.gEnd)
    ensures Blue(ColorAt(g, value).value) == Lerp(g, value, g.bStart, g.bEnd)
  {
    var r := Lerp(g, value, g.rStart, g.rEnd);
    var gr := Lerp(g, value, g.gStart, g.gEnd);
    var b := Lerp(g, value, g.bStart, g.bEnd);
    LerpBetween(g, value, g.rStart, g.rEnd);
    LerpBetween(g, value, g.gStart, g.gEnd);
    LerpBetween(g, value, g.bStart, g.bEnd);
    ShiftBytes(r, gr);
    UnpackPack(r, gr, b);
  }

  /** Inside an increasing value range every byte of the colour moves
      monotonically in the direction of its `end - start`. */
  lemma ColorAtMonotone(g: Gradient, v1: real, v2: real)
    requires g.maxValue > g.minValue
    requires g.minValue <= v1 <= v2 <= g.maxValue
    requires ByteChannels(g)
    ensures ColorAt(g, v1).Some? && ColorAt(g, v2).Some?
    ensures g.rStart <= g.rEnd ==> Red(ColorAt(g, v1).value) <= Red(ColorAt(g, v2).value)
    ensures g.rStart >= g.rEnd ==> Red(ColorAt(g, v1).value) >= Red(ColorAt(g, v2).value)
    ensures g.gStart <= g.gEnd ==> Green(ColorAt(g, v1).value) <= Green(ColorAt(g, v2).value)
    ensures g.gStart >= g.gEnd ==> Green(ColorAt(g, v1).value) >= Green(ColorAt(g, v2).value)
    ensures g.bStart <= g.bEnd ==> Blue(ColorAt(g, v1).value) <= Blue(ColorAt(g, v2).value)
    ensures g.bStart >= g.bEnd ==> Blue(ColorAt(g, v1).value) >= Blue(ColorAt(g, v2).value)
  {
    ColorAtInRange(g, v1);
    ColorAtInRange(g, v2);
    LerpMonotone(g, v1, v2, g.rStart, g.rEnd);
    LerpMonotone(g, v1, v2, g.gStart, g.gEnd);
    LerpMonotone(g, v1, v2, g.bStart, g.bEnd);
  }

  /** The interpolator object: its fields are the calibration, which
      `SetColorRange` and `SetValueRange` overwrite. */
  class ColorInterpolator {
    var minValue: real
    var maxValue: real
    var rStart: int
    var rEnd: int
    var gStart: int
    var gEnd: int
    var bStart: int
    var bEnd: int

    function Settings(): Gradient
      reads this
    {
      Gradient(minValue, maxValue, rStart, rEnd, gStart, gEnd, bStart, bEnd)
    }

    /** Defaults: values `[0, 1]`, every channel from 0 to 255. */
    constructor()
      ensures Settings() == Gradient(0.0, 1.0, 0, 255, 0, 255, 0, 255)
      ensures ByteChannels(Settings())
    {
      minValue, maxValue := 0.0, 1.0;
      rStart, rEnd := 0, 255;
      gStart, gEnd := 0, 255;
      bStart, bEnd := 0, 255;
    }

    /** Unpacks two packed colours into the start and end bytes; the value
        range is kept. */
    method SetColorRange(colorStart: int, colorEnd: int)
      modifies this
      ensures Settings() == old(Settings()).(
        rStart := Red(colorStart), gStart := Green(colorStart), bStart := Blue(colorStart),
        rEnd := Red(colorEnd), gEnd := Green(colorEnd), bEnd := Blue(colorEnd))
      ensures ByteChannels(Settings())
    {
      rStart := Red(colorStart);
      gStart := Green(colorStart);
      bStart := Blue(colorStart);
      rEnd := Red(colorEnd);
      gEnd := Green(colorEnd);
      bEnd := Blue(colorEnd);
    }

    /** Sets the value range; the channels are kept. */
    method SetValueRange(minValue: real, maxValue: real)
      modifies this
      ensures Settings() == old(Settings()).(minValue := minValue, maxValue := maxValue)
    {
      this.minValue := minValue;
      this.maxValue := maxValue;
    }

    function Interpolate(value: real, start: int, end: int): int
      reads this
      requires maxValue != minValue
    {
      Lerp(Settings(), value, start, end)
    }

    function GetColor(value: real): Option<int>
      reads this
    {
      ColorAt(Settings(), value)
    }
  }
}
