/**
 * Hand-written recognisers for the three colour patterns shared by both
 * `ColorRepresentation` versions:
 *
 *   hex   `^#?([0-9A-Fa-f]{6}|[0-9A-Fa-f]{3})$`
 *   rgb   `^rgb\((C),[ ]*(C),[ ]*(C)\)$`
 *   rgba  `^rgba\((C),[ ]*(C),[ ]*(C),[ ]*(0?\.\d+)\)$`
 *
 * where the channel alternative C is `1?[0-9]{1,2}|2[0-5][0-5]`. Each
 * recogniser returns the capture groups of the (unique) match, and the match
 * rebuilds the input, so a string is accepted exactly when it is in the
 * pattern's language. `$` is read as the end of the input.
 */
module ColorPatterns {
  import opened Wrappers
  import opened Ascii

  /** The channel alternative as written, or the one that admits every value 0-255. */
  datatype ChannelGrammar = AsWritten | Intended

  /** `1?[0-9]{1,2}|2[0-5][0-5]`. */
  predicate IsChannelToken(t: string)
  {
    && AllDigits(t)
    && (|t| == 1 || |t| == 2 || (|t| == 3 && (t[0] == '1' || (t[0] == '2' && t[1] <= '5' && t[2] <= '5'))))
  }

  /** `25[0-5]|2[0-4][0-9]|1?[0-9]{1,2}`. */
  predicate IsIntendedChannelToken(t: string)
  {
    && AllDigits(t)
    && (|t| == 1 || |t| == 2 ||
        (|t| == 3 && (t[0] == '1' || (t[0] == '2' && (t[1] <= '4' || (t[1] == '5' && t[2] <= '5'))))))
  }

  predicate IsChannel(g: ChannelGrammar, t: string)
  {
    match g
    case AsWritten => IsChannelToken(t)
    case Intended => IsIntendedChannelToken(t)
  }

  /** `0?\.\d+`. */
  predicate IsAlphaToken(t: string)
  {
    || (|t| >= 2 && t[0] == '.' && AllDigits(t[1..]))
    || (|t| >= 3 && t[0] == '0' && t[1] == '.' && AllDigits(t[2..]))
  }

  /** The digits after the point of an alpha token. */
  function AlphaFraction(t: string): (d: string)
    requires IsAlphaToken(t)
    ensures |d| > 0 && AllDigits(d)
  {
    if t[0] == '.' then t[1..] else t[2..]
  }

  /** `Float(a)` for an alpha token, as an exact decimal. */
  function AlphaValue(t: string): (x: real)
    requires IsAlphaToken(t)
    ensures 0.0 <= x < 1.0
  {
    var d := AlphaFraction(t);
    FractionBelowOne(DecimalValue(d), Pow(10, |d|));
    DecimalValue(d) as real / Pow(10, |d|) as real
  }

  lemma FractionBelowOne(n: nat, p: nat)
    requires n < p
    ensures 0.0 <= n as real / p as real < 1.0
  {
    var q := n as real / p as real;
    assert q * (p as real) == n as real;
  }

  function Spaces(n: nat): (s: string)
    ensures |s| == n && forall i :: 0 <= i < n ==> s[i] == ' '
  {
    seq(n, _ => ' ')
  }

  // ---- The languages, as the strings they consist of ----

  function HexText(hash: bool, digits: string): string
  {
    (if hash then "#" else "") + digits
  }

  /** A token, the `,` after it and the `[ ]*` skipped, then the rest of the input. */
  function Field(t: string, gap: nat, rest: string): string
  {
    t + "," + Spaces(gap) + rest
  }

  /** `rgb(r,` gap1 `g,` gap2 `b)`. */
  function RgbText(r: string, g: string, b: string, gap1: nat, gap2: nat): string
  {
    "rgb(" + Field(r, gap1, Field(g, gap2, b + ")"))
  }

  /** `rgba(r,` gap1 `g,` gap2 `b,` gap3 `a)`. */
  function RgbaText(r: string, g: string, b: string, a: string, gap1: nat, gap2: nat, gap3: nat): string
  {
    "rgba(" + Field(r, gap1, Field(g, gap2, Field(b, gap3, a + ")")))
  }

  // ---- Matches: the capture groups and the spacing that was skipped ----

  datatype HexMatch = HexMatch(hash: bool, digits: string)

  datatype RgbMatch = RgbMatch(red: string, green: string, blue: string, gap1: nat, gap2: nat)

  datatype RgbaMatch = RgbaMatch(red: string, green: string, blue: string, alpha: string,
                                 gap1: nat, gap2: nat, gap3: nat)

  predicate ValidHexDigits(d: string) { (|d| == 3 || |d| == 6) && AllHexDigits(d) }

  /** The hex pattern; group 1 is the digits without `#`. */
  function MatchHex(s: string): (m: Option<HexMatch>)
    ensures m.Some? ==> s == HexText(m.value.hash, m.value.digits) && ValidHexDigits(m.value.digits)
    ensures m.Some? ==> |s| > 0 && (s[0] == '#' || IsHexDigit(s[0]))
  {
    var hash := |s| > 0 && s[0] == '#';
    var d := if hash then s[1..] else s;
    if ValidHexDigits(d) then Some(HexMatch(hash, d)) else None
  }

  lemma MatchHexComplete(hash: bool, d: string)
    requires ValidHexDigits(d)
    ensures MatchHex(HexText(hash, d)) == Some(HexMatch(hash, d))
  {
    var s := HexText(hash, d);
    if hash {
      assert s[1..] == d;
    } else {
      assert s == d;
      assert IsHexDigit(d[0]);
    }
  }

  /** The longest prefix of decimal digits, and the rest. */
  function SplitDigits(s: string): (p: (string, string))
    ensures p.0 + p.1 == s && AllDigits(p.0)
    ensures p.1 == [] || !IsDigit(p.1[0])
  {
    if s == [] || !IsDigit(s[0]) then ([], s)
    else
      var (d, rest) := SplitDigits(s[1..]);
      assert [s[0]] + d + rest == s;
      ([s[0]] + d, rest)
  }

  /** The longest prefix of spaces (`[ ]*` is greedy), and the rest. */
  function SplitSpaces(s: string): (p: (string, string))
    ensures p.0 + p.1 == s && p.0 == Spaces(|p.0|)
    ensures p.1 == [] || p.1[0] != ' '
  {
    if s == [] || s[0] != ' ' then ([], s)
    else
      var (sp, rest) := SplitSpaces(s[1..]);
      assert [s[0]] + sp + rest == s;
      ([s[0]] + sp, rest)
  }

  lemma {:induction false} SplitDigitsOf(t: string, rest: string)
    requires AllDigits(t)
    requires rest == [] || !IsDigit(rest[0])
    ensures SplitDigits(t + rest) == (t, rest)
  {
    if t == [] {
      assert t + rest == rest;
    } else {
      assert (t + rest)[1..] == t[1..] + rest;
      SplitDigitsOf(t[1..], rest);
      assert [t[0]] + t[1..] == t;
    }
  }

  lemma {:induction false} SplitSpacesOf(n: nat, rest: string)
    requires rest == [] || rest[0] != ' '
    ensures SplitSpaces(Spaces(n) + rest) == (Spaces(n), rest)
  {
    if n == 0 {
      assert Spaces(n) + rest == rest;
    } else {
      assert (Spaces(n) + rest)[1..] == Spaces(n - 1) + rest;
      SplitSpacesOf(n - 1, rest);
      assert [' '] + Spaces(n - 1) == Spaces(n);
    }
  }

  /**
   * A channel token, then `,` and the spaces after it: the token, the number
   * of spaces and the rest of the input.
   */
  function ChannelThenComma(s: string, g: ChannelGrammar): (m: Option<(string, nat, string)>)
    ensures m.Some? ==> IsChannel(g, m.value.0) && s == Field(m.value.0, m.value.1, m.value.2)
    ensures m.Some? ==> m.value.2 == [] || m.value.2[0] != ' '
  {
    var (t, s1) := SplitDigits(s);
    if IsChannel(g, t) && s1 != [] && s1[0] == ',' then
      var (sp, s2) := SplitSpaces(s1[1..]);
      CommaJoin(s, t, s1, sp, s2);
      Some((t, |sp|, s2))
    else None
  }

  lemma CommaJoin(s: string, t: string, s1: string, sp: string, s2: string)
    requires t + s1 == s && |s1| > 0 && s1[0] == ','
    requires sp + s2 == s1[1..] && sp == Spaces(|sp|)
    ensures s == Field(t, |sp|, s2)
  {
    assert s1 == [','] + s1[1..];
  }

  lemma ChannelThenCommaOf(t: string, g: ChannelGrammar, n: nat, rest: string)
    requires IsChannel(g, t)
    requires rest == [] || rest[0] != ' '
    ensures ChannelThenComma(Field(t, n, rest), g) == Some((t, n, rest))
  {
    var s1 := "," + (Spaces(n) + rest);
    Regroup(t, ",", Spaces(n), rest);
    SplitDigitsOf(t, s1);
    assert s1[1..] == Spaces(n) + rest;
    SplitSpacesOf(n, rest);
  }

  lemma Regroup(w: string, x: string, y: string, z: string)
    ensures w + x + y + z == w + (x + (y + z))
  {
  }

  /** The rgb pattern; groups 1-3 are the channel tokens. */
  function MatchRgb(s: string, g: ChannelGrammar): (m: Option<RgbMatch>)
    ensures m.Some? ==>
              && IsChannel(g, m.value.red) && IsChannel(g, m.value.green) && IsChannel(g, m.value.blue)
              && s == RgbText(m.value.red, m.value.green, m.value.blue, m.value.gap1, m.value.gap2)
    ensures m.Some? ==> |s| >= 4 && s[0] == 'r' && s[3] == '('
  {
    if |s| < 4 || s[..4] != "rgb(" then None
    else
      OpeningChars(s, "rgb(");
      match ChannelThenComma(s[4..], g)
      case None => None
      case Some((r, n1, s1)) =>
        match ChannelThenComma(s1, g)
        case None => None
        case Some((gr, n2, s2)) =>
          var (b, s3) := SplitDigits(s2);
          if IsChannel(g, b) && s3 == ")" then
            RgbJoin(s, r, n1, s1, gr, n2, s2, b);
            Some(RgbMatch(r, gr, b, n1, n2))
          else None
  }

  /** The rgba pattern; groups 1-3 are the channels and group 4 the alpha token. */
  function MatchRgba(s: string, g: ChannelGrammar): (m: Option<RgbaMatch>)
    ensures m.Some? ==>
              && IsChannel(g, m.value.red) && IsChannel(g, m.value.green) && IsChannel(g, m.value.blue)
              && IsAlphaToken(m.value.alpha)
              && s == RgbaText(m.value.red, m.value.green, m.value.blue, m.value.alpha,
                               m.value.gap1, m.value.gap2, m.value.gap3)
    ensures m.Some? ==> |s| >= 5 && s[0] == 'r' && s[3] == 'a'
  {
    if |s| < 5 || s[..5] != "rgba(" then None
    else
      OpeningChars(s, "rgba(");
      match ChannelThenComma(s[5..], g)
      case None => None
      case Some((r, n1, s1)) =>
        match ChannelThenComma(s1, g)
        case None => None
        case Some((gr, n2, s2)) =>
          match ChannelThenComma(s2, g)
          case None => None
          case Some((b, n3, s3)) =>
            if |s3| >= 1 && s3[|s3| - 1] == ')' && IsAlphaToken(s3[..|s3| - 1]) then
              var a := s3[..|s3| - 1];
              RgbaJoin(s, r, n1, s1, gr, n2, s2, b, n3, s3, a);
              Some(RgbaMatch(r, gr, b, a, n1, n2, n3))
            else None
  }

  /** The first and fourth characters of a string that opens with `rgb(` or `rgba(`. */
  lemma OpeningChars(s: string, opening: string)
    requires |opening| >= 4 && |s| >= |opening| && s[..|opening|] == opening
    ensures s[0] == opening[0] && s[3] == opening[3]
  {
    assert s[..|opening|][0] == s[0] && s[..|opening|][3] == s[3];
  }

  lemma RgbJoin(s: string, r: string, n1: nat, s1: string, gr: string, n2: nat, s2: string, b: string)
    requires |s| >= 4 && s[..4] == "rgb("
    requires s[4..] == Field(r, n1, s1)
    requires s1 == Field(gr, n2, s2)
    requires s2 == b + ")"
    ensures s == RgbText(r, gr, b, n1, n2)
  {
    assert s == s[..4] + s[4..];
  }

  lemma RgbaJoin(s: string, r: string, n1: nat, s1: string, gr: string, n2: nat, s2: string,
                 b: string, n3: nat, s3: string, a: string)
    requires |s| >= 5 && s[..5] == "rgba("
    requires s[5..] == Field(r, n1, s1)
    requires s1 == Field(gr, n2, s2)
    requires s2 == Field(b, n3, s3)
    requires |s3| >= 1 && s3[|s3| - 1] == ')' && a == s3[..|s3| - 1]
    ensures s == RgbaText(r, gr, b, a, n1, n2, n3)
  {
    assert s == s[..5] + s[5..];
    assert s3 == a + ")";
  }

  lemma MatchRgbComplete(r: string, gr: string, b: string, n1: nat, n2: nat, g: ChannelGrammar)
    requires IsChannel(g, r) && IsChannel(g, gr) && IsChannel(g, b)
    ensures MatchRgb(RgbText(r, gr, b, n1, n2), g) == Some(RgbMatch(r, gr, b, n1, n2))
  {
    var s := RgbText(r, gr, b, n1, n2);
    var s2 := b + ")";
    var s1 := Field(gr, n2, s2);
    assert s[..4] == "rgb(";
    assert s[4..] == Field(r, n1, s1);
    assert IsDigit(gr[0]) && IsDigit(b[0]);
    ChannelThenCommaOf(r, g, n1, s1);
    ChannelThenCommaOf(gr, g, n2, s2);
    SplitDigitsOf(b, ")");
  }

  lemma MatchRgbaComplete(r: string, gr: string, b: string, a: string, n1: nat, n2: nat, n3: nat,
                          g: ChannelGrammar)
    requires IsChannel(g, r) && IsChannel(g, gr) && IsChannel(g, b) && IsAlphaToken(a)
    ensures MatchRgba(RgbaText(r, gr, b, a, n1, n2, n3), g) == Some(RgbaMatch(r, gr, b, a, n1, n2, n3))
  {
    var s := RgbaText(r, gr, b, a, n1, n2, n3);
    var s3 := a + ")";
    var s2 := Field(b, n3, s3);
    var s1 := Field(gr, n2, s2);
    assert s[..5] == "rgba(";
    assert s[5..] == Field(r, n1, s1);
    assert IsDigit(gr[0]) && IsDigit(b[0]) && (a[0] == '.' || a[0] == '0');
    ChannelThenCommaOf(r, g, n1, s1);
    ChannelThenCommaOf(gr, g, n2, s2);
    ChannelThenCommaOf(b, g, n3, s3);
    assert s3[..|s3| - 1] == a;
  }

  // ---- Values of the tokens ----

  lemma DecimalValue3(t: string)
    requires AllDigits(t) && |t| == 3
    ensures DecimalValue(t) == 100 * DigitValue(t[0]) + 10 * DigitValue(t[1]) + DigitValue(t[2])
  {
    var t2, t1 := t[..2], t[..1];
    assert t2[..1] == t1 && t1[..0] == [];
    assert DecimalValue(t1) == DigitValue(t[0]);
    assert DecimalValue(t2) == DecimalValue(t1) * 10 + DigitValue(t[1]);
    assert DecimalValue(t) == DecimalValue(t2) * 10 + DigitValue(t[2]);
  }

  /** Every channel token either grammar accepts denotes a value in 0..255. */
  lemma ChannelTokenBounded(g: ChannelGrammar, t: string)
    requires IsChannel(g, t)
    ensures DecimalValue(t) <= 255
  {
    if |t| == 3 {
      DecimalValue3(t);
    } else if |t| == 2 {
      assert DecimalValue(t) < Pow(10, 2) == 100;
    } else {
      assert DecimalValue(t) < Pow(10, 1) == 10;
    }
  }

  function DigitChar(d: nat): (c: char)
    requires d < 10
    ensures IsDigit(c) && DigitValue(c) == d
  {
    ('0' as int + d) as char
  }

  /** The canonical decimal numeral of `n`, as `String(n)` writes it. */
  function DecimalText(n: nat): (t: string)
    ensures |t| > 0 && AllDigits(t) && DecimalValue(t) == n
    ensures n < 10 ==> |t| == 1
    ensures 10 <= n < 100 ==> |t| == 2
    ensures 100 <= n < 1000 ==> |t| == 3 && t[0] == DigitChar(n / 100)
                                && t[1] == DigitChar((n / 10) % 10) && t[2] == DigitChar(n % 10)
    decreases n
  {
    if n < 10 then [DigitChar(n)]
    else
      var t := DecimalText(n / 10) + [DigitChar(n % 10)];
      assert t[..|t| - 1] == DecimalText(n / 10);
      t
  }

  /** The corrected channel grammar accepts the numeral of every byte value. */
  lemma {:induction false} IntendedChannelAcceptsEveryByte(n: nat)
    requires n <= 255
    ensures IsIntendedChannelToken(DecimalText(n))
  {
    if n >= 200 {
      assert n / 100 == 2;
      assert (n / 10) % 10 == 5 ==> n % 10 <= 5;
    } else if n >= 100 {
      assert n / 100 == 1;
    }
  }

  /**
   * The channel grammar as written rejects the numerals 206-209, 216-219,
   * 226-229, 236-239 and 246-249: it needs both of the last two digits of a
   * value from 200 up to be at most 5.
   */
  lemma {:induction false} AsWrittenChannelAcceptsByte(n: nat)
    requires n <= 255
    ensures IsChannelToken(DecimalText(n)) <==> !(n >= 200 && ((n / 10) % 10 > 5 || n % 10 > 5))
  {
    if n >= 200 {
      assert n / 100 == 2;
    } else if n >= 100 {
      assert n / 100 == 1;
    }
  }

  // ---- Which pattern can match ----

  lemma PatternsDisjoint(s: string, g: ChannelGrammar, g': ChannelGrammar)
    ensures MatchHex(s).Some? ==> MatchRgb(s, g).None? && MatchRgba(s, g').None?
    ensures MatchRgb(s, g).Some? ==> MatchRgba(s, g').None?
  {
    var hex, rgb, rgba := MatchHex(s), MatchRgb(s, g), MatchRgba(s, g');
    assert hex.Some? ==> s[0] == '#' || IsHexDigit(s[0]);
    assert rgb.Some? ==> s[0] == 'r' && s[3] == '(';
    assert rgba.Some? ==> s[0] == 'r' && s[3] == 'a';
  }

  /** The two patterns `init(fromString:)` and `valueFromString` loop over. */
  datatype Pattern = RgbPattern | RgbaPattern

  /** Capture groups 1.. of the pattern's first match; `numberOfRanges` is one more. */
  function Groups(p: Pattern, s: string, g: ChannelGrammar): (gs: Option<seq<string>>)
    ensures gs.Some? ==> |gs.value| == (if p == RgbPattern then 3 else 4)
    ensures gs.Some? ==> IsChannel(g, gs.value[0]) && IsChannel(g, gs.value[1]) && IsChannel(g, gs.value[2])
    ensures gs.Some? && p == RgbaPattern ==> IsAlphaToken(gs.value[3])
  {
    match p
    case RgbPattern =>
      (match MatchRgb(s, g)
       case Some(m) => Some([m.red, m.green, m.blue])
       case None => None)
    case RgbaPattern =>
      (match MatchRgba(s, g)
       case Some(m) => Some([m.red, m.green, m.blue, m.alpha])
       case None => None)
  }

  /** The optionals `r`, `g`, `b` and `a` that the loop over the patterns fills in. */
  datatype Captures = Captures(red: Option<string>, green: Option<string>, blue: Option<string>,
                               alpha: Option<string>)

  /** The captures after the loop has visited the patterns `ps` in order. */
  function CapturesAfter(ps: seq<Pattern>, s: string, g: ChannelGrammar): Captures
  {
    if ps == [] then Captures(None, None, None, None)
    else
      var prev := CapturesAfter(ps[..|ps| - 1], s, g);
      match Groups(ps[|ps| - 1], s, g)
      case None => prev
      case Some(gs) =>
        Captures(Some(gs[0]), Some(gs[1]), Some(gs[2]), if |gs| + 1 == 5 then Some(gs[3]) else prev.alpha)
  }

  /** After both patterns, the captures are those of whichever one matched. */
  lemma CapturesAfterBoth(s: string, g: ChannelGrammar)
    ensures var c := CapturesAfter([RgbPattern, RgbaPattern], s, g);
            match MatchRgb(s, g)
            case Some(m) => c == Captures(Some(m.red), Some(m.green), Some(m.blue), None)
            case None =>
              match MatchRgba(s, g)
              case Some(m) => c == Captures(Some(m.red), Some(m.green), Some(m.blue), Some(m.alpha))
              case None => c == Captures(None, None, None, None)
  {
    var ps := [RgbPattern, RgbaPattern];
    assert ps[..1] == [RgbPattern] && ps[..1][..0] == [];
    PatternsDisjoint(s, g, g);
    var c0 := CapturesAfter([], s, g);
    var c1 := CapturesAfter([RgbPattern], s, g);
    assert c1 == match Groups(RgbPattern, s, g)
                 case None => c0
                 case Some(gs) => Captures(Some(gs[0]), Some(gs[1]), Some(gs[2]), c0.alpha);
    assert CapturesAfter(ps, s, g) == match Groups(RgbaPattern, s, g)
                 case None => c1
                 case Some(gs) => Captures(Some(gs[0]), Some(gs[1]), Some(gs[2]), Some(gs[3]));
  }

  /** `Int(_:)` on a captured channel. */
  function IntFromDecimal(t: string): (v: Option<int>)
    ensures v.Some? ==> v.value >= 0
  {
    if |t| > 0 && AllDigits(t) then Some(DecimalValue(t)) else None
  }

  /** `Int(_:radix: 16)` on the captured hex digits. */
  function IntFromHex(t: string): (v: Option<int>)
    ensures v.Some? ==> v.value >= 0
  {
    if |t| > 0 && AllHexDigits(t) then Some(HexValue(t)) else None
  }

  /** `Float(_:)` on the captured alpha. */
  function FloatFromAlpha(t: string): (v: Option<real>)
  {
    if IsAlphaToken(t) then Some(AlphaValue(t)) else None
  }
}
