/**
 * `Int.toRGBA`: a packed colour literal to red, green, blue and alpha in
 * [0, 1]. The branch is chosen by magnitude: above 0xFFFFFF the value is
 * RRGGBBAA, above 0xFFF it is RRGGBB, otherwise it is the RGB shorthand with
 * one hex digit per channel.
 */
module IntExtensions {

  /** Swift's `Int` on a 64-bit platform. */
  type Int64 = x: int | -0x8000_0000_0000_0000 <= x < 0x8000_0000_0000_0000

  /**
   * `(v >> (8 * k)) & 0xFF`. An arithmetic right shift is division rounding
   * down and the mask is the non-negative remainder, which is what Dafny's
   * Euclidean `/` and `%` compute for a positive divisor.
   */
  function Byte(v: int, k: nat): (b: nat)
    requires k < 4
    ensures b < 0x100
  {
    match k
    case 0 => v % 0x100
    case 1 => (v / 0x100) % 0x100
    case 2 => (v / 0x1_0000) % 0x100
    case 3 => (v / 0x100_0000) % 0x100
  }

  /** `(v >> (4 * k)) & 0xF`. */
  function Nibble(v: int, k: nat): (n: nat)
    requires k < 3
    ensures n < 0x10
  {
    match k
    case 0 => v % 0x10
    case 1 => (v / 0x10) % 0x10
    case 2 => (v / 0x100) % 0x10
  }

  /** The numerators `toRGBA` divides, over the common denominator `scale`. */
  datatype Channels = Channels(red: nat, green: nat, blue: nat, alpha: nat, scale: nat)

  function PackedChannels(v: int): (c: Channels)
    ensures c.scale == (if v > 0xFFF then 0xFF else 0xF)
    ensures c.red <= c.scale && c.green <= c.scale && c.blue <= c.scale && c.alpha <= c.scale
    ensures v <= 0xFF_FFFF ==> c.alpha == c.scale
  {
    if v > 0xFF_FFFF then Channels(Byte(v, 3), Byte(v, 2), Byte(v, 1), Byte(v, 0), 0xFF)
    else if v > 0xFFF then Channels(Byte(v, 2), Byte(v, 1), Byte(v, 0), 0xFF, 0xFF)
    else Channels(Nibble(v, 2), Nibble(v, 1), Nibble(v, 0), 0xF, 0xF)
  }

  /** The four components as the fractions `toRGBA` writes. */
  function Components(v: int): (real, real, real, real)
  {
    var c := PackedChannels(v);
    (c.red as real / c.scale as real, c.green as real / c.scale as real,
     c.blue as real / c.scale as real, c.alpha as real / c.scale as real)
  }

  predicate InUnitInterval(x: real) { 0.0 <= x <= 1.0 }

  /** Every numerator is at most its denominator, for every `Int`, negatives included. */
  lemma ComponentsInUnitInterval(v: int)
    ensures var (r, g, b, a) := Components(v);
            InUnitInterval(r) && InUnitInterval(g) && InUnitInterval(b) && InUnitInterval(a)
  {
    var c := PackedChannels(v);
    FractionInUnitInterval(c.red, c.scale);
    FractionInUnitInterval(c.green, c.scale);
    FractionInUnitInterval(c.blue, c.scale);
    FractionInUnitInterval(c.alpha, c.scale);
  }

  lemma FractionInUnitInterval(n: nat, d: nat)
    requires 0 < d && n <= d
    ensures InUnitInterval(n as real / d as real)
  {
  }

  /** Opaque unless the value is RRGGBBAA. */
  lemma OpaqueBelowEightDigits(v: int)
    requires v <= 0xFF_FFFF
    ensures Components(v).3 == 1.0
  {
  }

  /** For a non-negative value that fits 32 bits, the numerators recombine to the value. */
  lemma ChannelsRoundTrip(v: int)
    requires 0 <= v <= 0xFFFF_FFFF
    ensures var c := PackedChannels(v);
            if v > 0xFF_FFFF then c.red * 0x100_0000 + c.green * 0x1_0000 + c.blue * 0x100 + c.alpha == v
            else if v > 0xFFF then c.red * 0x1_0000 + c.green * 0x100 + c.blue == v
            else c.red * 0x100 + c.green * 0x10 + c.blue == v
  {
    if v > 0xFF_FFFF {
      EightDigitsRecombine(v);
    } else if v > 0xFFF {
      SixDigitsRecombine(v);
    } else {
      ThreeDigitsRecombine(v);
    }
  }

  lemma EightDigitsRecombine(v: int)
    requires 0 <= v <= 0xFFFF_FFFF
    ensures Byte(v, 3) * 0x100_0000 + Byte(v, 2) * 0x1_0000 + Byte(v, 1) * 0x100 + Byte(v, 0) == v
  {
    assert v / 0x100_0000 < 0x100;
    assert v / 0x1_0000 == (v / 0x100_0000) * 0x100 + (v / 0x1_0000) % 0x100;
    assert v / 0x100 == (v / 0x1_0000) * 0x100 + (v / 0x100) % 0x100;
    assert v == (v / 0x100) * 0x100 + v % 0x100;
  }

  lemma SixDigitsRecombine(v: int)
    requires 0 <= v <= 0xFF_FFFF
    ensures Byte(v, 2) * 0x1_0000 + Byte(v, 1) * 0x100 + Byte(v, 0) == v
  {
    assert v / 0x1_0000 < 0x100;
    assert v / 0x100 == (v / 0x1_0000) * 0x100 + (v / 0x100) % 0x100;
    assert v == (v / 0x100) * 0x100 + v % 0x100;
  }

  lemma ThreeDigitsRecombine(v: int)
    requires 0 <= v <= 0xFFF
    ensures Nibble(v, 2) * 0x100 + Nibble(v, 1) * 0x10 + Nibble(v, 0) == v
  {
    assert v / 0x100 < 0x10;
    assert v / 0x10 == (v / 0x100) * 0x10 + (v / 0x10) % 0x10;
    assert v == (v / 0x10) * 0x10 + v % 0x10;
  }

  /** `0xF00`, `0xFF0000` and `0xFF0000FF` are all opaque red. */
  lemma RedLiterals()
    ensures Components(0xF00) == (1.0, 0.0, 0.0, 1.0)
    ensures Components(0xFF_0000) == (1.0, 0.0, 0.0, 1.0)
    ensures Components(0xFF00_00FF) == (1.0, 0.0, 0.0, 1.0)
  {
    assert PackedChannels(0xF00) == Channels(0xF, 0, 0, 0xF, 0xF);
    assert PackedChannels(0xFF_0000) == Channels(0xFF, 0, 0, 0xFF, 0xFF);
    assert PackedChannels(0xFF00_00FF) == Channels(0xFF, 0, 0, 0xFF, 0xFF);
  }

  /**
   * The branch follows magnitude, not digit count: `0x000FFF` is the number
   * `0xFFF`, read as the shorthand `FFF` (opaque white), not as RRGGBB.
   */
  lemma ShorthandByMagnitude()
    ensures Components(0x000FFF) == (1.0, 1.0, 1.0, 1.0)
    ensures Components(0x001000) == (0.0, 16.0 / 255.0, 0.0, 1.0)
  {
    assert PackedChannels(0x000FFF) == Channels(0xF, 0xF, 0xF, 0xF, 0xF);
    assert PackedChannels(0x001000) == Channels(0, 0x10, 0, 0xFF, 0xFF);
  }

  /** `toRGBA(_:_:_:_:)`: writes the four components through its `inout` parameters. */
  method ToRGBA(v: Int64) returns (r: real, g: real, b: real, a: real)
    ensures (r, g, b, a) == Components(v)
    ensures InUnitInterval(r) && InUnitInterval(g) && InUnitInterval(b) && InUnitInterval(a)
  {
    var c := PackedChannels(v);
    if v > 0xFF_FFFF {
      var red, green, blue, alpha := (v / 0x100_0000) % 0x100, (v / 0x1_0000) % 0x100, (v / 0x100) % 0x100, v % 0x100;
      assert red == c.red && green == c.green && blue == c.blue && alpha == c.alpha;
      r := red as real / 255.0;
      g := green as real / 255.0;
      b := blue as real / 255.0;
      a := alpha as real / 255.0;
    } else if v > 0xFFF {
      var red, green, blue := (v / 0x1_0000) % 0x100, (v / 0x100) % 0x100, v % 0x100;
      assert red == c.red && green == c.green && blue == c.blue && c.alpha == 0xFF;
      r := red as real / 255.0;
      g := green as real / 255.0;
      b := blue as real / 255.0;
      a := 1.0;
    } else {
      var red, green, blue := (v / 0x100) % 0x10, (v / 0x10) % 0x10, v % 0x10;
      assert red == c.red && green == c.green && blue == c.blue && c.alpha == 0xF;
      r := red as real / 15.0;
      g := green as real / 15.0;
      b := blue as real / 15.0;
      a := 1.0;
    }
    ComponentsInUnitInterval(v);
  }
}
