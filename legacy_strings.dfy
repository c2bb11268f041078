/**
 * The older `String` extensions of `String.swift`. They compute what the
 * newer ones compute, except that `range()` counts characters rather than
 * UTF-16 code units, and the two regular expressions scan only that range:
 * beyond the Basic Multilingual Plane they stop before the end of the
 * string. The `AsWritten` members model that scan; the rest of the module
 * scans the whole string, as the newer file does.
 */
module LegacyStringExtensions {
  import opened Ascii
  import S = StringExtensions

  datatype VariableNamingFormat = CamelCase | Underscores | PascalCase

  /** The same format in the newer enum's cases. */
  function AsModern(naming: VariableNamingFormat): S.VariableNamingFormat
  {
    match naming
    case CamelCase => S.camelCase
    case Underscores => S.underscores
    case PascalCase => S.pascalCase
  }

  /** `range()`: from 0 over `characters.count`. */
  function Range(s: string): (r: S.NSRange)
    ensures r.location == 0 && r.length == |s| <= S.Length(s)
  {
    S.NSRange(0, |s|)
  }

  /** The two versions' ranges agree exactly on strings inside the Basic Multilingual Plane. */
  lemma RangeAgreesOnBmp(s: string)
    ensures Range(s).location == S.Range(s).location == 0
    ensures Range(s) == S.Range(s) <==> forall i :: 0 <= i < |s| ==> s[i] as int < 0x1_0000
  {
    S.LengthOfBmp(s);
  }

  /** `stringByLowercasingFirstLetter()`. */
  function StringByLowercasingFirstLetter(s: string): (r: string)
    requires |s| > 0
    ensures |r| == |s| && r[0] == ToLower(s[0]) && r[1..] == s[1..]
    ensures !IsUpper(r[0])
  {
    [ToLower(s[0])] + s[1..]
  }

  /** `stringByUppercasingFirstLetter()`. */
  function StringByUppercasingFirstLetter(s: string): (r: string)
    requires |s| > 0
    ensures |r| == |s| && r[0] == ToUpper(s[0]) && r[1..] == s[1..]
    ensures !IsLower(r[0])
  {
    [ToUpper(s[0])] + s[1..]
  }

  /** Both first-letter functions change character 0 only, as the newer ones do. */
  lemma FirstLetterAgrees(s: string)
    requires |s| > 0
    ensures StringByLowercasingFirstLetter(s) == S.LowercasingFirstLetter(s)
    ensures StringByUppercasingFirstLetter(s) == S.UppercasingFirstLetter(s)
    ensures StringByUppercasingFirstLetter(s)[1..] == s[1..] && !IsLower(StringByUppercasingFirstLetter(s)[0])
  {
    assert StringByLowercasingFirstLetter(s)[1..] == s[1..];
    assert StringByUppercasingFirstLetter(s)[1..] == s[1..];
  }

  /** The characters of `chars`, as `NSCharacterSet(charactersInString:)` collects them. */
  function CharacterSet(chars: string): (cs: set<char>)
    ensures forall c :: c in cs <==> c in chars
  {
    set c | c in chars
  }

  /** `stringByTrimmingString(_:)`: trims the characters of `chars` from both ends. */
  function StringByTrimmingString(s: string, chars: string): (r: string)
    ensures var n := S.LeadingCount(s, CharacterSet(chars));
            && n + |r| <= |s| && r == s[n..n + |r|]
            && (forall k :: 0 <= k < n ==> s[k] in chars)
            && (forall k :: n + |r| <= k < |s| ==> s[k] in chars)
    ensures r == [] || (r[0] !in chars && r[|r| - 1] !in chars)
    ensures (forall i :: 0 <= i < |s| ==> s[i] !in chars) ==> r == s
  {
    S.TrimmingCharacters(s, CharacterSet(chars))
  }

  /**
   * The result is `s` without a prefix and a suffix made of characters of
   * `chars`, its ends are not among them, and trimming again changes nothing.
   */
  lemma TrimmingStringTrims(s: string, chars: string)
    ensures StringByTrimmingString(s, chars) == []
            || (StringByTrimmingString(s, chars)[0] !in chars
                && StringByTrimmingString(s, chars)[|StringByTrimmingString(s, chars)| - 1] !in chars)
    ensures StringByTrimmingString(StringByTrimmingString(s, chars), chars) == StringByTrimmingString(s, chars)
  {
    var cs := CharacterSet(chars);
    S.TrimIdempotent(s, cs);
  }

  /** `stringByReplacingSpacesWithDashes()`. */
  function StringByReplacingSpacesWithDashes(s: string): (r: string)
    ensures |r| == |s|
    ensures forall i :: 0 <= i < |s| ==> r[i] == (if s[i] == ' ' then '-' else ToLower(s[i]))
  {
    Lowercased(seq(|s|, i requires 0 <= i < |s| => if s[i] == ' ' then '-' else s[i]))
  }

  lemma ReplacingSpacesWithDashesAgrees(s: string)
    ensures StringByReplacingSpacesWithDashes(s) == S.ReplacingSpacesWithDashes(s)
    ensures forall i :: 0 <= i < |s| ==> StringByReplacingSpacesWithDashes(s)[i] != ' '
  {
  }

  // ---- The scan range of the older regular expressions ----

  /** The length of `[c] + x` is `c`'s code units plus the length of `x`. */
  lemma {:induction false} LengthCons(c: char, x: string)
    ensures S.Length([c] + x) == S.CodeUnits(c) + S.Length(x)
  {
    if x != [] {
      var p := x[..|x| - 1];
      LengthCons(c, p);
      assert ([c] + x)[..|x|] == [c] + p;
    } else {
      assert ([c] + x)[..0] == [];
    }
  }

  /** How many leading scalars of `s` lie wholly within the first `units` UTF-16 code units. */
  function ScannedPrefix(s: string, units: nat): (k: nat)
    ensures k <= |s|
    ensures k < |s| ==> S.Length(s[..k]) + S.CodeUnits(s[k]) > units
  {
    if s == [] || S.CodeUnits(s[0]) > units then 0
    else
      var k := 1 + ScannedPrefix(s[1..], units - S.CodeUnits(s[0]));
      assert k < |s| ==> s[..k] == [s[0]] + s[1..][..k - 1] && s[k] == s[1..][k - 1];
      LengthCons(s[0], if k < |s| then s[1..][..k - 1] else []);
      k
  }

  /** A range that covers the whole UTF-16 length covers every scalar. */
  lemma {:induction false} ScansWhole(s: string, units: nat)
    requires S.Length(s) <= units
    ensures ScannedPrefix(s, units) == |s|
  {
    if s != [] {
      assert s == [s[0]] + s[1..];
      LengthCons(s[0], s[1..]);
      ScansWhole(s[1..], units - S.CodeUnits(s[0]));
    }
  }

  /**
   * `stringByReplacingSpacesWithDashes()` as written: the regular expression
   * replaces spaces only within `range()`, then the whole string is lowercased.
   */
  function ReplacingSpacesWithDashesAsWritten(s: string): (r: string)
    ensures |r| == |s|
    ensures var k := ScannedPrefix(s, Range(s).length);
            forall i :: 0 <= i < |s| ==> r[i] == (if s[i] == ' ' && i < k then '-' else ToLower(s[i]))
  {
    var k := ScannedPrefix(s, Range(s).length);
    Lowercased(seq(k, i requires 0 <= i < k => if s[i] == ' ' then '-' else s[i]) + s[k..])
  }

  /**
   * `.Underscores` as written: `([A-Z]+)` is replaced only within `range()`;
   * trimming, lowercasing and the leading `_` then apply to the whole string.
   */
  function UnderscoresAsWritten(s: string): (r: string)
    ensures forall i :: 0 <= i < |r| ==> !IsUpper(r[i])
    ensures (|r| > 0 && r[0] == '_') <==> (|s| > 0 && s[0] == '_')
  {
    var k := ScannedPrefix(s, Range(s).length);
    var newString := Lowercased(S.TrimmingCharacters(S.MarkCapitalRuns(s[..k], false) + s[k..], {'_'}));
    if |s| > 0 && s[0] == '_' then "_" + newString else newString
  }

  /** On Basic Multilingual Plane text `range()` covers the whole string, and both scans agree with the corrected ones. */
  lemma ScanAgreesOnBmp(s: string)
    requires forall i :: 0 <= i < |s| ==> s[i] as int < 0x1_0000
    ensures ReplacingSpacesWithDashesAsWritten(s) == StringByReplacingSpacesWithDashes(s)
    ensures UnderscoresAsWritten(s) == S.Underscores(s)
  {
    S.LengthOfBmp(s);
    ScansWhole(s, |s|);
    assert s[..|s|] == s && s[|s|..] == [];
    assert S.MarkCapitalRuns(s[..|s|], false) + s[|s|..] == S.MarkCapitalRuns(s, false);
  }

  /** A scalar beyond the Basic Multilingual Plane fills the two units that a two-character `range()` spans. */
  lemma OutsideBmpFillsScan(s: string)
    requires |s| == 2 && s[0] as int >= 0x1_0000
    ensures ScannedPrefix(s, Range(s).length) == 1
  {
    assert ScannedPrefix(s[1..], 0) == 0;
  }

  /** After such a scalar a capital is not reached: no `_` goes before it, where the whole-string scan puts one. */
  lemma OutsideBmpThenCapital(e: char, c: char)
    requires e as int >= 0x1_0000 && IsUpper(c)
    ensures UnderscoresAsWritten([e, c]) == [e, ToLower(c)]
    ensures S.Underscores([e, c]) == [e, '_', ToLower(c)]
  {
    var s := [e, c];
    OutsideBmpFillsScan(s);
    S.MarkCapitalRunsWithoutCapitals(s[..1], false);
    assert s[..1] + s[1..] == s;
    S.TrimFixed(s, {'_'});
    MarkAfterOutsideBmp(e, c);
    S.TrimFixed([e, '_', c], {'_'});
  }

  lemma MarkAfterOutsideBmp(e: char, c: char)
    requires e as int >= 0x1_0000 && IsUpper(c)
    ensures S.MarkCapitalRuns([e, c], false) == [e, '_', c]
  {
    assert !IsUpper(e);
    assert [e, c][1..] == [c] && [c][1..] == [];
    assert S.MarkCapitalRuns([c], false) == ['_', c];
  }

  /** After such a scalar a space is not reached, and stays a space where the whole-string scan gives `-`. */
  lemma OutsideBmpThenSpace(e: char)
    requires e as int >= 0x1_0000
    ensures ReplacingSpacesWithDashesAsWritten([e, ' ']) == [e, ' ']
    ensures StringByReplacingSpacesWithDashes([e, ' ']) == [e, '-']
  {
    OutsideBmpFillsScan([e, ' ']);
  }

  /** The counterexamples: `"😀A"` becomes `"😀a"`, not `"😀_a"`, and `"😀 "` keeps its space. */
  lemma ScanStopsEarly(s: string, t: string)
    requires s == "\U{1F600}A" && t == "\U{1F600} "
    ensures UnderscoresAsWritten(s) == "\U{1F600}a" && S.Underscores(s) == "\U{1F600}_a"
    ensures ReplacingSpacesWithDashesAsWritten(t) == t && StringByReplacingSpacesWithDashes(t) == "\U{1F600}-"
  {
    OutsideBmpThenCapital('\U{1F600}', 'A');
    OutsideBmpThenSpace('\U{1F600}');
  }

  /** `stringByConvertingToNamingFormat(_:)`, with the source's loop for `.PascalCase`. */
  method StringByConvertingToNamingFormat(s: string, naming: VariableNamingFormat) returns (r: string)
    requires naming != CamelCase
    ensures r == S.Converted(s, AsModern(naming))
  {
    match naming
    case Underscores =>
      r := S.Underscores(s);
    case PascalCase =>
      var uppercaseNextCharacter := false;
      var result := "";
      assert s[0..] == s;
      for i := 0 to |s|
        invariant result + S.PascalFrom(s[i..], uppercaseNextCharacter) == S.PascalCase(s)
      {
        S.PascalFromStep(s, i, uppercaseNextCharacter);
        if s[i] == '_' {
          uppercaseNextCharacter := true;
        } else {
          if uppercaseNextCharacter {
            S.AppendAssoc(result, [ToUpper(s[i])], S.PascalFrom(s[i + 1..], false));
            result := result + [ToUpper(s[i])];
            uppercaseNextCharacter := false;
          } else {
            S.AppendAssoc(result, [s[i]], S.PascalFrom(s[i + 1..], false));
            result := result + [s[i]];
          }
        }
      }
      assert AsModern(naming) == S.pascalCase;
      r := result;
  }

  /** `isComposedOfCharactersInSet(_:)`: false at the first scalar outside the set, true otherwise. */
  method IsComposedOfCharactersInSet(s: string, characterSet: set<char>) returns (b: bool)
    ensures b <==> forall i :: 0 <= i < |s| ==> s[i] in characterSet
  {
    var i := 0;
    while i < |s|
      invariant 0 <= i <= |s|
      invariant forall k :: 0 <= k < i ==> s[k] in characterSet
    {
      if s[i] !in characterSet {
        return false;
      }
      i := i + 1;
    }
    return true;
  }

  /** The `mutating` methods, on a string variable that they reassign. */
  class MutableString {
    var value: string

    constructor (value: string)
      ensures this.value == value
    {
      this.value := value;
    }

    /** `trim(_:)`. */
    method Trim(chars: string)
      modifies this
      ensures value == StringByTrimmingString(old(value), chars)
    {
      value := StringByTrimmingString(value, chars);
    }

    /** `replaceSpacesWithDashes()`. */
    method ReplaceSpacesWithDashes()
      modifies this
      ensures value == StringByReplacingSpacesWithDashes(old(value))
    {
      value := StringByReplacingSpacesWithDashes(value);
    }

    /** `replaceCapitalsWithUnderscores()`. */
    method ReplaceCapitalsWithUnderscores()
      modifies this
      ensures value == S.Underscores(old(value))
    {
      value := StringByConvertingToNamingFormat(value, Underscores);
    }

    /** `convertToNamingFormat(_:)`. */
    method ConvertToNamingFormat(naming: VariableNamingFormat)
      requires naming != CamelCase
      modifies this
      ensures value == S.Converted(old(value), AsModern(naming))
    {
      value := StringByConvertingToNamingFormat(value, naming);
    }
  }

  // ---- `NSString` and `NSAttributedString` forwarding ----

  /** `NSString.stringByUppercasingFirstLetter()` as written: it forwards to the lowercasing one. */
  function NSStringUppercasingFirstLetter(s: string): (r: string)
    requires |s| > 0
    ensures |r| == |s| && r[0] == ToLower(s[0]) && r[1..] == s[1..]
    ensures !IsUpper(r[0])
  {
    StringByLowercasingFirstLetter(s)
  }

  /** `NSAttributedString.stringByUppercasingFirstLetter()` as written: it forwards to the lowercasing one. */
  function NSAttributedStringUppercasingFirstLetter(s: string): (r: string)
    requires |s| > 0
    ensures |r| == |s| && r[0] == ToLower(s[0]) && r[1..] == s[1..]
    ensures !IsUpper(r[0])
  {
    StringByLowercasingFirstLetter(s)
  }

  /** The forwarding the name promises. */
  function NSStringUppercasingFirstLetterCorrected(s: string): (r: string)
    requires |s| > 0
    ensures |r| == |s| && !IsLower(r[0]) && r[1..] == s[1..]
  {
    StringByUppercasingFirstLetter(s)
  }

  /** Both uppercasing forwards lowercase instead: `"Abc"` comes back as `"abc"`. */
  lemma UppercasingForwardingLowercases()
    ensures NSStringUppercasingFirstLetter("Abc") == "abc"
    ensures NSAttributedStringUppercasingFirstLetter("Abc") == "abc"
    ensures NSStringUppercasingFirstLetterCorrected("abc") == "Abc"
  {
    assert "Abc"[1..] == "bc";
    assert "abc"[1..] == "bc";
  }

  /** `NSAttributedString.stringByConvertingToNamingFormat(_:)` as written: the argument is ignored. */
  method NSAttributedStringConverting(s: string, naming: VariableNamingFormat) returns (r: string)
    ensures r == S.Underscores(s)
  {
    r := StringByConvertingToNamingFormat(s, Underscores);
  }

  /** The forwarding that honours the argument, as `NSString`'s does. */
  method NSAttributedStringConvertingCorrected(s: string, naming: VariableNamingFormat) returns (r: string)
    requires naming != CamelCase
    ensures r == S.Converted(s, AsModern(naming))
  {
    r := StringByConvertingToNamingFormat(s, naming);
  }

  /** `NSString.stringByConvertingToNamingFormat(_:)` forwards faithfully. */
  method NSStringConverting(s: string, naming: VariableNamingFormat) returns (r: string)
    requires naming != CamelCase
    ensures r == S.Converted(s, AsModern(naming))
  {
    r := StringByConvertingToNamingFormat(s, naming);
  }

  /** Asked for `.PascalCase`, the attributed-string forward gives `"foo_bar"` where `"fooBar"` is meant. */
  lemma AttributedConvertingIgnoresNaming(s: string)
    requires s == "foo_bar"
    ensures S.Underscores(s) == s
    ensures S.Converted(s, AsModern(PascalCase)) == "fooBar"
  {
    S.AttributedConvertingIgnoresNaming(s);
  }

  /** The other forwards pass the string through. */
  function NSStringRange(s: string): (r: S.NSRange)
    ensures r.location == 0 && r.length == |s| <= S.Length(s)
  {
    Range(s)
  }

  function NSStringLowercasingFirstLetter(s: string): (r: string)
    requires |s| > 0
    ensures |r| == |s| && r[0] == ToLower(s[0]) && r[1..] == s[1..]
  {
    StringByLowercasingFirstLetter(s)
  }

  function NSStringReplacingSpacesWithDashes(s: string): (r: string)
    ensures |r| == |s|
    ensures forall i :: 0 <= i < |s| ==> r[i] == (if s[i] == ' ' then '-' else ToLower(s[i]))
  {
    StringByReplacingSpacesWithDashes(s)
  }

  function NSStringTrimmingString(s: string, chars: string): (r: string)
    ensures r == [] || (r[0] !in chars && r[|r| - 1] !in chars)
    ensures (forall i :: 0 <= i < |s| ==> s[i] !in chars) ==> r == s
  {
    StringByTrimmingString(s, chars)
  }

  function NSAttributedStringRange(s: string): (r: S.NSRange)
    ensures r.location == 0 && r.length == |s| <= S.Length(s)
  {
    Range(s)
  }

  function NSAttributedStringLowercasingFirstLetter(s: string): (r: string)
    requires |s| > 0
    ensures |r| == |s| && r[0] == ToLower(s[0]) && r[1..] == s[1..]
  {
    StringByLowercasingFirstLetter(s)
  }

  function NSAttributedStringReplacingSpacesWithDashes(s: string): (r: string)
    ensures |r| == |s|
    ensures forall i :: 0 <= i < |s| ==> r[i] == (if s[i] == ' ' then '-' else ToLower(s[i]))
  {
    StringByReplacingSpacesWithDashes(s)
  }

  function NSAttributedStringTrimmingString(s: string, chars: string): (r: string)
    ensures r == [] || (r[0] !in chars && r[|r| - 1] !in chars)
    ensures (forall i :: 0 <= i < |s| ==> s[i] !in chars) ==> r == s
  {
    StringByTrimmingString(s, chars)
  }
}
