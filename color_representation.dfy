/**
 * `ColorRepresentation` as the current `ColorRepresentation.swift` writes
 * it: integer, array and string literals. `init(fromString:)` assigns `.HEX`
 * for a hex string and then unconditionally reassigns `self`, so hex strings
 * end as `.invalid`; `ParseIntended` is the evidently intended reading.
 */
module ColorRepresentation {
  import opened Wrappers
  import opened Ascii
  import opened ColorPatterns

  datatype ColorRepresentation =
    | HEX(hex: int)
    | RGB(red: int, green: int, blue: int)
    | RGBA(red: int, green: int, blue: int, alpha: real)
    | invalid

  /** `init(integerLiteral:)`: the literal is kept unchanged, whatever its magnitude. */
  function IntegerLiteral(value: int): (c: ColorRepresentation)
    ensures c.HEX? && c.hex == value
  {
    HEX(value)
  }

  /** `Int(_:)` applied to a `Float`: the integer part, rounding toward zero. */
  function Truncate(x: real): (n: int)
    ensures x >= 0.0 ==> 0 <= n && n as real <= x < n as real + 1.0
    ensures x < 0.0 ==> n <= 0 && n as real - 1.0 < x <= n as real
  {
    if x >= 0.0 then x.Floor else -((-x).Floor)
  }

  /** `init(arrayLiteral:)`: three elements are RGB, four are RGBA, anything else is `HEX(0)`. */
  function ArrayLiteral(elements: seq<real>): (c: ColorRepresentation)
    ensures |elements| == 3 ==>
              c == RGB(Truncate(elements[0]), Truncate(elements[1]), Truncate(elements[2]))
    ensures |elements| == 4 ==>
              c == RGBA(Truncate(elements[0]), Truncate(elements[1]), Truncate(elements[2]), elements[3])
    ensures |elements| != 3 && |elements| != 4 ==> c == HEX(0)
  {
    var intElements := seq(|elements|, i requires 0 <= i < |elements| => Truncate(elements[i]));
    match |elements|
    case 3 => RGB(intElements[0], intElements[1], intElements[2])
    case 4 => RGBA(intElements[0], intElements[1], intElements[2], elements[3])
    case _ => HEX(0)
  }

  /** Whole-number channels pass through the array literal unchanged; the fourth element stays fractional. */
  lemma ArrayLiteralOfWholeNumbers(r: int, g: int, b: int, a: real)
    ensures ArrayLiteral([r as real, g as real, b as real]) == RGB(r, g, b)
    ensures ArrayLiteral([r as real, g as real, b as real, a]) == RGBA(r, g, b, a)
  {
  }

  /**
   * What `init(fromString:)` leaves in `self`: the channels of an rgb or rgba
   * match, and `.invalid` for every other string, hex strings included.
   */
  function Parse(s: string): (c: ColorRepresentation)
    ensures !c.HEX?
    ensures c.RGB? <==> MatchRgb(s, AsWritten).Some?
    ensures c.RGBA? <==> MatchRgba(s, AsWritten).Some?
    ensures c.invalid? <==> MatchRgb(s, AsWritten).None? && MatchRgba(s, AsWritten).None?
    ensures (c.RGB? || c.RGBA?) ==> 0 <= c.red <= 255 && 0 <= c.green <= 255 && 0 <= c.blue <= 255
    ensures c.RGBA? ==> 0.0 <= c.alpha < 1.0
  {
    PatternsDisjoint(s, AsWritten, AsWritten);
    match MatchRgb(s, AsWritten)
    case Some(m) =>
      ChannelTokenBounded(AsWritten, m.red);
      ChannelTokenBounded(AsWritten, m.green);
      ChannelTokenBounded(AsWritten, m.blue);
      RGB(DecimalValue(m.red), DecimalValue(m.green), DecimalValue(m.blue))
    case None =>
      match MatchRgba(s, AsWritten)
      case Some(m) =>
        ChannelTokenBounded(AsWritten, m.red);
        ChannelTokenBounded(AsWritten, m.green);
        ChannelTokenBounded(AsWritten, m.blue);
        RGBA(DecimalValue(m.red), DecimalValue(m.green), DecimalValue(m.blue), AlphaValue(m.alpha))
      case None => invalid
  }

  /** A string in the rgb language parses to its decimal channels. */
  lemma ParseRgb(r: string, g: string, b: string, n1: nat, n2: nat)
    requires IsChannelToken(r) && IsChannelToken(g) && IsChannelToken(b)
    ensures Parse(RgbText(r, g, b, n1, n2)) == RGB(DecimalValue(r), DecimalValue(g), DecimalValue(b))
  {
    MatchRgbComplete(r, g, b, n1, n2, AsWritten);
  }

  /** A string in the rgba language parses to its channels and its exact decimal alpha. */
  lemma ParseRgba(r: string, g: string, b: string, a: string, n1: nat, n2: nat, n3: nat)
    requires IsChannelToken(r) && IsChannelToken(g) && IsChannelToken(b) && IsAlphaToken(a)
    ensures Parse(RgbaText(r, g, b, a, n1, n2, n3))
            == RGBA(DecimalValue(r), DecimalValue(g), DecimalValue(b), AlphaValue(a))
  {
    MatchRgbaComplete(r, g, b, a, n1, n2, n3, AsWritten);
    PatternsDisjoint(RgbaText(r, g, b, a, n1, n2, n3), AsWritten, AsWritten);
  }

  /** The `.HEX` value held in `hexSelf` never survives: the string ends as `.invalid`. */
  lemma HexStringsBecomeInvalid(s: string)
    requires MatchHex(s).Some?
    ensures Parse(s) == invalid
  {
    PatternsDisjoint(s, AsWritten, AsWritten);
  }

  lemma RgbaSample()
    ensures Parse("rgba(255, 0, 0, 0.5)") == RGBA(255, 0, 0, 0.5)
  {
    var t := "255";
    assert t[..2] == "25" && t[..2][..1] == "2" && t[..1][..0] == [];
    assert DecimalValue("255") == 255;
    var z := "0";
    assert z[..0] == [];
    assert DecimalValue("0") == 0;
    var a := "0.5";
    assert AlphaFraction(a) == "5";
    var f := "5";
    assert f[..0] == [];
    assert DecimalValue(f) == 5 && Pow(10, 1) == 10;
    assert "rgba(255, 0, 0, 0.5)" == RgbaText("255", "0", "0", "0.5", 1, 1, 1);
    ParseRgba("255", "0", "0", "0.5", 1, 1, 1);
  }

  lemma HexSample()
    ensures Parse("f00") == invalid
  {
    assert MatchHex("f00") == Some(HexMatch(false, "f00"));
    HexStringsBecomeInvalid("f00");
  }

  lemma NonColorSample()
    ensures Parse("not-a-color") == invalid
  {
    var s := "not-a-color";
    assert s[..4] != "rgb(" by { assert s[..4][0] == 'n'; }
    assert s[..5] != "rgba(" by { assert s[..5][0] == 'n'; }
    assert MatchRgb(s, AsWritten) == None;
    assert MatchRgba(s, AsWritten) == None;
  }

  /** `init(fromString:)`, following the source's assignments and loop. */
  method FromString(s: string) returns (c: ColorRepresentation)
    ensures c == Parse(s)
  {
    // `self` as the hex test leaves it; every path below assigns `self` again.
    var hexSelf: Option<ColorRepresentation> := None;
    var hexMatch := MatchHex(s);
    if hexMatch.Some? {
      var integerValue := IntFromHex(hexMatch.value.digits);
      if integerValue.Some? {
        hexSelf := Some(HEX(integerValue.value));
      }
    }

    var r, g, b, a := CaptureChannels(s);
    CapturesAfterBoth(s, AsWritten);

    if r.None? || g.None? || b.None? {
      c := invalid;
      return;
    }
    var redValue := IntFromDecimal(r.value);
    var greenValue := IntFromDecimal(g.value);
    var blueValue := IntFromDecimal(b.value);
    if redValue.None? || greenValue.None? || blueValue.None? {
      c := invalid;
      return;
    }
    var alpha := if a.Some? then FloatFromAlpha(a.value) else None;
    if alpha.Some? {
      c := RGBA(redValue.value, greenValue.value, blueValue.value, alpha.value);
    } else {
      c := RGB(redValue.value, greenValue.value, blueValue.value);
    }
  }

  /** The loop of `init(fromString:)` over the rgb and rgba patterns, filling in `r`, `g`, `b` and `a`. */
  method CaptureChannels(s: string) returns (r: Option<string>, g: Option<string>, b: Option<string>, a: Option<string>)
    ensures Captures(r, g, b, a) == CapturesAfter([RgbPattern, RgbaPattern], s, AsWritten)
  {
    r, g, b, a := None, None, None, None;
    var patterns := [RgbPattern, RgbaPattern];
    for k := 0 to |patterns|
      invariant Captures(r, g, b, a) == CapturesAfter(patterns[..k], s, AsWritten)
    {
      assert patterns[..k + 1][..k] == patterns[..k];
      var groups := Groups(patterns[k], s, AsWritten);
      if groups.Some? {
        r := Some(groups.value[0]);
        g := Some(groups.value[1]);
        b := Some(groups.value[2]);
        if |groups.value| + 1 == 5 {
          a := Some(groups.value[3]);
        }
      }
    }
    assert patterns[..2] == patterns;
  }

  /** `init(stringLiteral:)` delegates to `init(fromString:)`. */
  method StringLiteral(value: string) returns (c: ColorRepresentation)
    ensures c == Parse(value)
  {
    c := FromString(value);
  }

  /** `init(extendedGraphemeClusterLiteral:)` delegates to `init(fromString:)`. */
  method ExtendedGraphemeClusterLiteral(value: string) returns (c: ColorRepresentation)
    ensures c == Parse(value)
  {
    c := FromString(value);
  }

  /** `init(unicodeScalarLiteral:)` delegates to `init(fromString:)`. */
  method UnicodeScalarLiteral(value: string) returns (c: ColorRepresentation)
    ensures c == Parse(value)
  {
    c := FromString(value);
  }

  // ---- The evidently intended parse ----

  /**
   * Hex strings give `HEX` of their digits (the test returning early, as the
   * older `valueFromString` does), and every channel value 0-255 is admitted.
   */
  function ParseIntended(s: string): (c: ColorRepresentation)
    ensures MatchHex(s).Some? ==> c == HEX(HexValue(MatchHex(s).value.digits))
    ensures (c.RGB? || c.RGBA?) ==> 0 <= c.red <= 255 && 0 <= c.green <= 255 && 0 <= c.blue <= 255
    ensures c.RGBA? ==> 0.0 <= c.alpha < 1.0
    ensures c.invalid? <==>
              MatchHex(s).None? && MatchRgb(s, Intended).None? && MatchRgba(s, Intended).None?
  {
    match MatchHex(s)
    case Some(h) => HEX(HexValue(h.digits))
    case None =>
      match MatchRgb(s, Intended)
      case Some(m) =>
        ChannelTokenBounded(Intended, m.red);
        ChannelTokenBounded(Intended, m.green);
        ChannelTokenBounded(Intended, m.blue);
        RGB(DecimalValue(m.red), DecimalValue(m.green), DecimalValue(m.blue))
      case None =>
        match MatchRgba(s, Intended)
        case Some(m) =>
          ChannelTokenBounded(Intended, m.red);
          ChannelTokenBounded(Intended, m.green);
          ChannelTokenBounded(Intended, m.blue);
          RGBA(DecimalValue(m.red), DecimalValue(m.green), DecimalValue(m.blue), AlphaValue(m.alpha))
        case None => invalid
  }

  /** With the intended reading, `"f00"` and `"#FF0000"` are hex colours. */
  lemma IntendedHexStrings()
    ensures ParseIntended("f00") == HEX(0xF00)
    ensures ParseIntended("#FF0000") == HEX(0xFF0000)
  {
    assert MatchHex("f00") == Some(HexMatch(false, "f00"));
    assert MatchHex("#FF0000").value.digits == "FF0000";
    HexSamples();
  }

  lemma HexSamples()
    ensures HexValue("f00") == 0xF00 && HexValue("FF0000") == 0xFF0000
  {
    HexF00();
    HexFF0();
    HexFF0000();
  }

  lemma HexF00()
    ensures HexValue("f00") == 0xF00
  {
    var f := "f00";
    assert f[..2] == "f0" && f[..2][..1] == "f" && f[..1][..0] == [];
    assert HexValue("f") == 0xF;
    assert HexValue("f0") == 0xF0;
  }

  lemma HexFF0()
    ensures HexValue("FF0") == 0xFF0
  {
    assert "FF0"[..2] == "FF" && "FF"[..1] == "F" && "F"[..0] == [];
    assert HexValue("F") == 0xF;
    assert HexValue("FF") == 0xFF;
  }

  lemma HexFF0000()
    requires HexValue("FF0") == 0xFF0
    ensures HexValue("FF0000") == 0xFF0000
  {
    assert "FF0000"[..5] == "FF000" && "FF000"[..4] == "FF00" && "FF00"[..3] == "FF0";
    assert HexValue("FF00") == 0xFF00;
    assert HexValue("FF000") == 0xFF000;
  }

  /** With the intended reading, every RGB triple written out in decimal parses back to itself. */
  lemma IntendedRgbRoundTrip(r: nat, g: nat, b: nat)
    requires r <= 255 && g <= 255 && b <= 255
    ensures ParseIntended(RgbText(DecimalText(r), DecimalText(g), DecimalText(b), 1, 1)) == RGB(r, g, b)
  {
    var s := RgbText(DecimalText(r), DecimalText(g), DecimalText(b), 1, 1);
    IntendedChannelAcceptsEveryByte(r);
    IntendedChannelAcceptsEveryByte(g);
    IntendedChannelAcceptsEveryByte(b);
    MatchRgbComplete(DecimalText(r), DecimalText(g), DecimalText(b), 1, 1, Intended);
    PatternsDisjoint(s, Intended, Intended);
    assert s[0] == 'r' && s[..4] == "rgb(";
  }

  /** As written, `"rgb(249, 0, 0)"` is not a colour: `249` is outside the channel grammar. */
  lemma ChannelGapRejected()
    ensures !IsChannelToken("249")
    ensures Parse("rgb(249, 0, 0)") == invalid
    ensures ParseIntended("rgb(249, 0, 0)") == RGB(249, 0, 0)
  {
    GapSampleAsWritten();
    GapSampleIntended();
  }

  lemma GapSampleAsWritten()
    ensures Parse("rgb(249, 0, 0)") == invalid
  {
    GapSampleUnmatched();
  }

  lemma GapSampleIntended()
    ensures ParseIntended("rgb(249, 0, 0)") == RGB(249, 0, 0)
  {
    GapSampleIsRgbText();
    IntendedRgbRoundTrip(249, 0, 0);
  }

  lemma GapSampleIsRgbText()
    ensures "rgb(249, 0, 0)" == RgbText(DecimalText(249), DecimalText(0), DecimalText(0), 1, 1)
  {
    var t := DecimalText(249);
    assert |t| == 3 && t[0] == '2' && t[1] == '4' && t[2] == '9';
    assert t == "249";
    assert DecimalText(0) == "0";
  }

  lemma GapSampleUnmatched()
    ensures MatchRgb("rgb(249, 0, 0)", AsWritten) == None
    ensures MatchRgba("rgb(249, 0, 0)", AsWritten) == None
  {
    var s := "rgb(249, 0, 0)";
    assert s[..4] == "rgb(";
    assert s[4..] == "249" + ", 0, 0)";
    assert AllDigits("249");
    SplitDigitsOf("249", ", 0, 0)");
    assert !IsChannelToken("249");
    assert ChannelThenComma(s[4..], AsWritten) == None;
    assert s[..5] != "rgba(" by { assert s[..5][3] == '('; }
  }
}
