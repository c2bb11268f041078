/**
 * The older `ColorRepresentation` of `UIColor.swift`: the same literals, with
 * `valueFromString` returning `Hex` as soon as the hex pattern matches.
 */
module LegacyColorRepresentation {
  import opened Wrappers
  import opened Ascii
  import opened ColorPatterns
  import Modern = ColorRepresentation

  datatype ColorRepresentation =
    | Hex(hex: int)
    | RGB(red: int, green: int, blue: int)
    | RGBA(red: int, green: int, blue: int, alpha: real)
    | Invalid

  /** The same colour in the newer enum's cases. */
  function AsModern(c: ColorRepresentation): Modern.ColorRepresentation
  {
    match c
    case Hex(v) => Modern.HEX(v)
    case RGB(r, g, b) => Modern.RGB(r, g, b)
    case RGBA(r, g, b, a) => Modern.RGBA(r, g, b, a)
    case Invalid => Modern.invalid
  }

  /** `init(integerLiteral:)`: the literal is kept unchanged. */
  function IntegerLiteral(value: int): (c: ColorRepresentation)
    ensures c.Hex? && c.hex == value
  {
    Hex(value)
  }

  /** `init(arrayLiteral:)`, written as an if-chain on the element count. */
  function ArrayLiteral(elements: seq<real>): (c: ColorRepresentation)
    ensures |elements| == 3 ==>
              c == RGB(Modern.Truncate(elements[0]), Modern.Truncate(elements[1]), Modern.Truncate(elements[2]))
    ensures |elements| == 4 ==>
              c == RGBA(Modern.Truncate(elements[0]), Modern.Truncate(elements[1]),
                        Modern.Truncate(elements[2]), elements[3])
    ensures |elements| != 3 && |elements| != 4 ==> c == Hex(0)
  {
    var intElements := seq(|elements|, i requires 0 <= i < |elements| => Modern.Truncate(elements[i]));
    if |elements| == 3 then RGB(intElements[0], intElements[1], intElements[2])
    else if |elements| == 4 then RGBA(intElements[0], intElements[1], intElements[2], elements[3])
    else Hex(0)
  }

  /** Both versions build the same colour from every integer and array literal. */
  lemma LiteralsAgree(value: int, elements: seq<real>)
    ensures AsModern(IntegerLiteral(value)) == Modern.IntegerLiteral(value)
    ensures AsModern(ArrayLiteral(elements)) == Modern.ArrayLiteral(elements)
  {
  }

  /**
   * What `valueFromString` returns: `Hex` of the digits for a hex string,
   * otherwise the channels of an rgb or rgba match, otherwise `Invalid`.
   */
  function Parse(s: string): (c: ColorRepresentation)
    ensures MatchHex(s).Some? ==> c == Hex(HexValue(MatchHex(s).value.digits))
    ensures c.Hex? <==> MatchHex(s).Some?
    ensures c.RGB? <==> MatchHex(s).None? && MatchRgb(s, AsWritten).Some?
    ensures c.RGBA? <==> MatchHex(s).None? && MatchRgba(s, AsWritten).Some?
    ensures c.Invalid? <==>
              MatchHex(s).None? && MatchRgb(s, AsWritten).None? && MatchRgba(s, AsWritten).None?
    ensures c.Hex? ==> 0 <= c.hex < 0x100_0000
    ensures (c.RGB? || c.RGBA?) ==> 0 <= c.red <= 255 && 0 <= c.green <= 255 && 0 <= c.blue <= 255
    ensures c.RGBA? ==> 0.0 <= c.alpha < 1.0
  {
    match MatchHex(s)
    case Some(h) =>
      HexBelow(h.digits);
      Hex(HexValue(h.digits))
    case None =>
      PatternsDisjoint(s, AsWritten, AsWritten);
      match MatchRgb(s, AsWritten)
      case Some(m) =>
        ChannelTokenBounded(AsWritten, m.red);
        ChannelTokenBounded(AsWritten, m.green);
        ChannelTokenBounded(AsWritten, m.blue);
        RGB(DecimalValue(m.red), DecimalValue(m.green), DecimalValue(m.blue))
      case None =>
        match MatchRgba(s, AsWritten)
        case Some(m) =>
          ChannelTokenBounded(AsWritten, m.red);
          ChannelTokenBounded(AsWritten, m.green);
          ChannelTokenBounded(AsWritten, m.blue);
          RGBA(DecimalValue(m.red), DecimalValue(m.green), DecimalValue(m.blue), AlphaValue(m.alpha))
        case None => Invalid
  }

  /** Three or six hex digits denote a value below `0x1000000`. */
  lemma HexBelow(d: string)
    requires ValidHexDigits(d)
    ensures HexValue(d) < 0x100_0000
  {
    if |d| == 3 {
      assert Pow(16, 3) == 0x1000;
    } else {
      assert Pow(16, 6) == 0x100_0000;
    }
  }

  /**
   * Off the hex language the two versions agree; on it the older one keeps
   * the hex value that the newer one overwrites.
   */
  lemma AgreesWithNewerVersion(s: string)
    ensures MatchHex(s).None? ==> AsModern(Parse(s)) == Modern.Parse(s)
    ensures MatchHex(s).Some? ==> Modern.Parse(s) == Modern.invalid && AsModern(Parse(s)).HEX?
  {
    PatternsDisjoint(s, AsWritten, AsWritten);
  }

  /** On hex strings the older version gives what the corrected reading gives. */
  lemma HexAgreesWithIntended(s: string)
    requires MatchHex(s).Some?
    ensures AsModern(Parse(s)) == Modern.ParseIntended(s)
  {
  }

  /** `valueFromString`, following the source's early return and loop. */
  method ValueFromString(value: string) returns (c: ColorRepresentation)
    ensures c == Parse(value)
  {
    var hexMatch := MatchHex(value);
    if hexMatch.Some? {
      var integerValue := IntFromHex(hexMatch.value.digits);
      if integerValue.Some? {
        return Hex(integerValue.value);
      }
    }

    // The same loop over the rgb and rgba patterns as `init(fromString:)`.
    var r, g, b, a := Modern.CaptureChannels(value);
    CapturesAfterBoth(value, AsWritten);
    // The hex digits always convert, so reaching here means no hex match.
    assert hexMatch.None?;

    if r.Some? && g.Some? && b.Some? {
      var redValue := IntFromDecimal(r.value);
      var greenValue := IntFromDecimal(g.value);
      var blueValue := IntFromDecimal(b.value);
      if redValue.Some? && greenValue.Some? && blueValue.Some? {
        var alpha := if a.Some? then FloatFromAlpha(a.value) else None;
        if alpha.Some? {
          return RGBA(redValue.value, greenValue.value, blueValue.value, alpha.value);
        } else {
          return RGB(redValue.value, greenValue.value, blueValue.value);
        }
      }
    }
    return Invalid;
  }

  /** `init(stringLiteral:)` delegates to `valueFromString`. */
  method StringLiteral(value: string) returns (c: ColorRepresentation)
    ensures c == Parse(value)
  {
    c := ValueFromString(value);
  }

  /** `init(extendedGraphemeClusterLiteral:)` delegates to `valueFromString`. */
  method ExtendedGraphemeClusterLiteral(value: string) returns (c: ColorRepresentation)
    ensures c == Parse(value)
  {
    c := ValueFromString(value);
  }

  /** `init(unicodeScalarLiteral:)` delegates to `valueFromString`. */
  method UnicodeScalarLiteral(value: string) returns (c: ColorRepresentation)
    ensures c == Parse(value)
  {
    c := ValueFromString(value);
  }

  // ---- The documented literals ----

  lemma HexSamples()
    ensures Parse("f00") == Hex(0xF00)
    ensures Parse("#FF0000") == Hex(0xFF0000)
  {
    assert MatchHex("f00") == Some(HexMatch(false, "f00"));
    assert MatchHex("#FF0000").value.digits == "FF0000";
    Modern.HexSamples();
  }

  /** Eight digits match no pattern, although the integer literal `0xFF0000FF` is a `Hex`. */
  lemma EightDigitsInvalid()
    ensures Parse("FF0000FF") == Invalid
    ensures IntegerLiteral(0xFF0000FF) == Hex(0xFF0000FF)
  {
    var s := "FF0000FF";
    assert s[0] == 'F';
    assert s[..4] != "rgb(" by { assert s[..4][0] == 'F'; }
    assert s[..5] != "rgba(" by { assert s[..5][0] == 'F'; }
  }

  /** A string in the rgb language parses to its decimal channels. */
  lemma ParseRgb(r: string, g: string, b: string, n1: nat, n2: nat)
    requires IsChannelToken(r) && IsChannelToken(g) && IsChannelToken(b)
    ensures Parse(RgbText(r, g, b, n1, n2)) == RGB(DecimalValue(r), DecimalValue(g), DecimalValue(b))
  {
    MatchRgbComplete(r, g, b, n1, n2, AsWritten);
    PatternsDisjoint(RgbText(r, g, b, n1, n2), AsWritten, AsWritten);
  }

  /** A string in the rgba language parses to its channels and its exact decimal alpha. */
  lemma ParseRgba(r: string, g: string, b: string, a: string, n1: nat, n2: nat, n3: nat)
    requires IsChannelToken(r) && IsChannelToken(g) && IsChannelToken(b) && IsAlphaToken(a)
    ensures Parse(RgbaText(r, g, b, a, n1, n2, n3))
            == RGBA(DecimalValue(r), DecimalValue(g), DecimalValue(b), AlphaValue(a))
  {
    MatchRgbaComplete(r, g, b, a, n1, n2, n3, AsWritten);
    PatternsDisjoint(RgbaText(r, g, b, a, n1, n2, n3), AsWritten, AsWritten);
  }

  lemma RgbSample()
    ensures Parse("rgb(255, 0, 0)") == RGB(255, 0, 0)
  {
    assert "rgb(255, 0, 0)" == RgbText("255", "0", "0", 1, 1);
    ByteSamples();
    ParseRgb("255", "0", "0", 1, 1);
  }

  lemma RgbaSample(s: string)
    requires s == "rgba(255, 0, 0, 0.15)"
    ensures Parse(s) == RGBA(255, 0, 0, 0.15)
  {
    ByteSamples();
    AlphaSample("0.15");
    RgbaTextSample(s);
    ParseRgba("255", "0", "0", "0.15", 1, 1, 1);
  }

  lemma AlphaSample(a: string)
    requires a == "0.15"
    ensures IsAlphaToken(a) && AlphaValue(a) == 0.15
  {
    assert AlphaFraction(a) == "15";
    assert "15"[..1] == "1" && "1"[..0] == [];
    assert DecimalValue("15") == 15;
    assert Pow(10, 2) == 100;
  }

  lemma RgbaTextSample(s: string)
    requires s == "rgba(255, 0, 0, 0.15)"
    ensures s == RgbaText("255", "0", "0", "0.15", 1, 1, 1)
  {
  }

  lemma ByteSamples()
    ensures DecimalValue("255") == 255 && DecimalValue("0") == 0
  {
    assert "255"[..2] == "25" && "25"[..1] == "2" && "2"[..0] == [];
    assert "0"[..0] == [];
  }
}
