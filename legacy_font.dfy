/**
 * The older `displayName()` of `UIFont.swift`. Its rewrite is the newer one,
 * with two differences:
 * - it is declared `throws`, because it builds its regular expression on
 *   every call; the pattern is the constant `([a-z])([A-Z])`, which always
 *   compiles, so the call never throws;
 * - `replaceMatches` scans only `range()`, the character count taken as
 *   UTF-16 units, so a name beyond the Basic Multilingual Plane is spaced
 *   out only in its prefix. Splitting and joining at `-` still take the
 *   whole name.
 */
module LegacyFontDisplayName {
  import opened Wrappers
  import opened Ascii
  import FontDisplayName
  import S = StringExtensions
  import L = LegacyStringExtensions

  datatype RegexError = InvalidPattern

  /** How many scalars of the name lie inside the scanned `range()`. */
  function Scanned(fontName: string): (k: nat)
    ensures k <= |fontName|
  {
    L.ScannedPrefix(fontName, L.NSStringRange(fontName).length)
  }

  /**
   * The name `displayName()` returns as written: boundaries are spaced out
   * inside the scanned prefix only, and every `-` of the whole name becomes
   * a space.
   */
  function DisplayedAsWritten(fontName: string): (r: string)
    ensures '-' !in r
    ensures |r| == |fontName| + FontDisplayName.Boundaries(fontName[..Scanned(fontName)])
  {
    var k := Scanned(fontName);
    FontDisplayName.ReplaceDashes(FontDisplayName.InsertSpaces(fontName[..k]) + fontName[k..])
  }

  /** `displayName()`: always succeeds, with the name as written. */
  method DisplayName(fontName: string) returns (r: Result<string, RegexError>)
    ensures r.Success?
    ensures r.value == DisplayedAsWritten(fontName)
    ensures '-' !in r.value
  {
    var k := Scanned(fontName);
    var spaced := FontDisplayName.ReplaceMatches(fontName[..k]);
    spaced := spaced + fontName[k..];
    var components := FontDisplayName.Components(spaced, '-');
    FontDisplayName.JoinedComponents(spaced);
    return Success(FontDisplayName.Joined(components, ' '));
  }

  /** On Basic Multilingual Plane names `range()` covers the whole name, and the two versions agree. */
  lemma ScanAgreesOnBmp(fontName: string)
    requires forall i :: 0 <= i < |fontName| ==> fontName[i] as int < 0x1_0000
    ensures DisplayedAsWritten(fontName) == FontDisplayName.Displayed(fontName)
  {
    S.LengthOfBmp(fontName);
    L.ScansWhole(fontName, |fontName|);
    assert fontName[..|fontName|] == fontName && fontName[|fontName|..] == [];
  }

  /** A scalar beyond the Basic Multilingual Plane and one more fill a three-character `range()`. */
  lemma OutsideBmpFillsScan(s: string)
    requires |s| == 3 && s[0] as int >= 0x1_0000 && s[1] as int < 0x1_0000
    ensures Scanned(s) == 2
  {
    assert L.NSStringRange(s).length == 3;
    assert s[1..][1..] == [s[2]];
    assert L.ScannedPrefix([s[2]], 0) == 0;
    assert L.ScannedPrefix(s[1..], 1) == 1;
  }

  /** A boundary right after such a scalar is not spaced out, where the newer version spaces it. */
  lemma OutsideBmpThenBoundary(e: char, a: char, b: char)
    requires e as int >= 0x1_0000 && IsLower(a) && IsUpper(b)
    ensures DisplayedAsWritten([e, a, b]) == [e, a, b]
    ensures FontDisplayName.Displayed([e, a, b]) == [e, a, ' ', b]
  {
    var s := [e, a, b];
    OutsideBmpFillsScan(s);
    assert s[..2] == [e, a] && s[2..] == [b];
    FontDisplayName.InsertSpacesWithoutBoundaries([e, a]);
    assert FontDisplayName.InsertSpaces([b]) == [b];
    assert FontDisplayName.InsertSpaces([a, b]) == [a, ' ', b];
    assert FontDisplayName.InsertSpaces(s) == [e, a, ' ', b];
  }

  /** The counterexample: `"😀aB"` keeps its boundary, where the newer version gives `"😀a B"`. */
  lemma ScanStopsEarly(s: string)
    requires s == "\U{1F600}aB"
    ensures DisplayedAsWritten(s) == s
    ensures FontDisplayName.Displayed(s) == "\U{1F600}a B"
  {
    OutsideBmpThenBoundary('\U{1F600}', 'a', 'B');
  }
}
