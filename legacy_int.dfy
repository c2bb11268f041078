/** The older copy of `Int.toRGBA`, kept beside the newer one. */
module LegacyIntExtensions {
  import opened IntExtensions

  /** `toRGBA(_:_:_:_:)` as first written; the same components as the newer copy. */
  method ToRGBA(v: Int64) returns (r: real, g: real, b: real, a: real)
    ensures (r, g, b, a) == Components(v)
    ensures InUnitInterval(r) && InUnitInterval(g) && InUnitInterval(b) && InUnitInterval(a)
  {
    var c := PackedChannels(v);
    if v > 0xFF_FFFF {
      var red, green, blue, alpha := (v / 0x100_0000) % 0x100, (v / 0x1_0000) % 0x100, (v / 0x100) % 0x100, v % 0x100;
      assert red == c.red && green == c.green && blue == c.blue && alpha == c.alpha;
      r := red as real / 255.0;
      g := green as real / 255.0;
      b := blue as real / 255.0;
      a := alpha as real / 255.0;
    }
    else if v > 0xFFF {
      var red, green, blue := (v / 0x1_0000) % 0x100, (v / 0x100) % 0x100, v % 0x100;
      assert red == c.red && green == c.green && blue == c.blue && c.alpha == 0xFF;
      r := red as real / 255.0;
      g := green as real / 255.0;
      b := blue as real / 255.0;
      a := 1.0;
    }
    else {
      var red, green, blue := (v / 0x100) % 0x10, (v / 0x10) % 0x10, v % 0x10;
      assert red == c.red && green == c.green && blue == c.blue && c.alpha == 0xF;
      r := red as real / 15.0;
      g := green as real / 15.0;
      b := blue as real / 15.0;
      a := 1.0;
    }
    ComponentsInUnitInterval(v);
  }
}
