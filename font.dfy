/**
 * `displayName` of `UIFont+LionheartExtensions.swift`: the pattern
 * `([a-z])([A-Z])` rewritten to `$1 $2` over the whole font name, then the
 * name split at `-` and joined again with single spaces.
 */
module FontDisplayName {
  import opened Ascii
  import StringExtensions

  /** `s[i]` and `s[i + 1]` match `([a-z])([A-Z])`. */
  predicate IsBoundary(s: string, i: int)
  {
    0 <= i < |s| - 1 && IsLower(s[i]) && IsUpper(s[i + 1])
  }

  /** The number of lower-to-upper boundaries in `s`. */
  function Boundaries(s: string): nat
  {
    if |s| < 2 then 0 else (if IsBoundary(s, 0) then 1 else 0) + Boundaries(s[1..])
  }

  predicate NoBoundaries(s: string)
  {
    forall i :: 0 <= i < |s| - 1 ==> !(IsLower(s[i]) && IsUpper(s[i + 1]))
  }

  /**
   * What `replaceMatches(in:options:range:withTemplate:)` leaves behind: a
   * space after the lower-case letter of each match. Two matches never
   * overlap (a letter is not both lower and upper case), so every boundary
   * is a match.
   */
  function InsertSpaces(s: string): (r: string)
    ensures |r| == |s| + Boundaries(s)
  {
    if s == [] then []
    else (if IsBoundary(s, 0) then [s[0], ' '] else [s[0]]) + InsertSpaces(s[1..])
  }

  /** Only spaces are inserted: without spaces, the rewritten name is the input's. */
  lemma {:induction false} InsertSpacesKeepsOrder(s: string)
    ensures StringExtensions.Without(InsertSpaces(s), ' ') == StringExtensions.Without(s, ' ')
  {
    if s != [] {
      InsertSpacesKeepsOrder(s[1..]);
      var head := if IsBoundary(s, 0) then [s[0], ' '] else [s[0]];
      WithoutAppend(head, InsertSpaces(s[1..]), ' ');
      WithoutAppend([s[0]], s[1..], ' ');
      assert [s[0]] + s[1..] == s;
      if IsBoundary(s, 0) {
        assert StringExtensions.Without([s[0], ' '], ' ') == [s[0]] by {
          assert [s[0], ' '][1..] == [' '];
        }
      }
    }
  }

  lemma {:induction false} WithoutAppend(a: string, b: string, c: char)
    ensures StringExtensions.Without(a + b, c) == StringExtensions.Without(a, c) + StringExtensions.Without(b, c)
  {
    if a != [] {
      assert (a + b)[1..] == a[1..] + b;
      WithoutAppend(a[1..], b, c);
    } else {
      assert a + b == b;
    }
  }

  /** A letter at the front of the rewritten name is the input's first letter. */
  lemma InsertSpacesHead(s: string)
    requires s != []
    ensures InsertSpaces(s) != [] && InsertSpaces(s)[0] == s[0]
  {
  }

  /** After the rewrite no boundary is left. */
  lemma {:induction false} InsertSpacesRemovesBoundaries(s: string)
    ensures NoBoundaries(InsertSpaces(s))
  {
    if s != [] {
      InsertSpacesRemovesBoundaries(s[1..]);
      var t := InsertSpaces(s[1..]);
      var r := InsertSpaces(s);
      if IsBoundary(s, 0) {
        assert r == [s[0], ' '] + t;
        forall i | 0 <= i < |r| - 1
          ensures !(IsLower(r[i]) && IsUpper(r[i + 1]))
        {
          if i >= 2 {
            assert r[i] == t[i - 2] && r[i + 1] == t[i - 1];
          }
        }
      } else {
        assert r == [s[0]] + t;
        if s[1..] != [] {
          InsertSpacesHead(s[1..]);
        }
        forall i | 0 <= i < |r| - 1
          ensures !(IsLower(r[i]) && IsUpper(r[i + 1]))
        {
          if i >= 1 {
            assert r[i] == t[i - 1] && r[i + 1] == t[i];
          } else {
            assert r[1] == t[0] == s[1];
          }
        }
      }
    }
  }

  /** A name without boundaries is left as it is. */
  lemma {:induction false} InsertSpacesWithoutBoundaries(s: string)
    requires NoBoundaries(s)
    ensures InsertSpaces(s) == s
  {
    if s != [] {
      assert NoBoundaries(s[1..]) by {
        forall i | 0 <= i < |s[1..]| - 1
          ensures !(IsLower(s[1..][i]) && IsUpper(s[1..][i + 1]))
        {
          assert s[1..][i] == s[i + 1] && s[1..][i + 1] == s[i + 2];
        }
      }
      InsertSpacesWithoutBoundaries(s[1..]);
      assert [s[0]] + s[1..] == s;
    }
  }

  /** Every `-` turned into a space. */
  function ReplaceDashes(s: string): (r: string)
    ensures |r| == |s|
    ensures forall i :: 0 <= i < |s| ==> r[i] == (if s[i] == '-' then ' ' else s[i])
  {
    seq(|s|, i requires 0 <= i < |s| => if s[i] == '-' then ' ' else s[i])
  }

  /** `components(separatedBy:)` with a one-character separator: never empty, `""` gives `[""]`. */
  function Components(s: string, separator: char): (parts: seq<string>)
    ensures |parts| >= 1
    ensures forall k :: 0 <= k < |parts| ==> separator !in parts[k]
  {
    if s == [] then [[]]
    else
      var rest := Components(s[1..], separator);
      if s[0] == separator then [[]] + rest
      else [[s[0]] + rest[0]] + rest[1..]
  }

  /** The characters of all the parts together. */
  function TotalLength(parts: seq<string>): nat
  {
    if parts == [] then 0 else |parts[0]| + TotalLength(parts[1..])
  }

  /**
   * `joined(separator:)` with a one-character separator: the parts, with one
   * separator between each two.
   */
  function Joined(parts: seq<string>, separator: char): (r: string)
    ensures parts == [] ==> r == []
    ensures parts != [] ==> |r| == TotalLength(parts) + |parts| - 1
  {
    if parts == [] then []
    else if |parts| == 1 then parts[0]
    else parts[0] + [separator] + Joined(parts[1..], separator)
  }

  /** Joining after an empty first part starts with the separator. */
  lemma JoinedEmptyFirst(parts: seq<string>, separator: char)
    requires |parts| >= 1
    ensures Joined([[]] + parts, separator) == [separator] + Joined(parts, separator)
  {
    assert ([[]] + parts)[1..] == parts;
  }

  /** A character put in front of the first part comes first in the joined text. */
  lemma JoinedPrepend(c: char, parts: seq<string>, separator: char)
    requires |parts| >= 1
    ensures Joined([[c] + parts[0]] + parts[1..], separator) == [c] + Joined(parts, separator)
  {
    var longer := [[c] + parts[0]] + parts[1..];
    if |parts| > 1 {
      assert longer[1..] == parts[1..];
    }
  }

  /** Splitting at `-` and joining with spaces replaces each `-` by a space. */
  lemma {:induction false} JoinedComponents(s: string)
    ensures Joined(Components(s, '-'), ' ') == ReplaceDashes(s)
  {
    if s != [] {
      JoinedComponents(s[1..]);
      var rest := Components(s[1..], '-');
      assert ReplaceDashes(s) == [if s[0] == '-' then ' ' else s[0]] + ReplaceDashes(s[1..]);
      if s[0] == '-' {
        JoinedEmptyFirst(rest, ' ');
      } else {
        JoinedPrepend(s[0], rest, ' ');
      }
    }
  }

  /**
   * The display name the property computes, stated without the regular
   * expression: no `-` is left, and it is one space longer per boundary.
   */
  function Displayed(fontName: string): (r: string)
    ensures '-' !in r
    ensures |r| == |fontName| + Boundaries(fontName)
  {
    ReplaceDashes(InsertSpaces(fontName))
  }

  /**
   * The rewrite of `NSMutableString` by `replaceMatches`, over a copy of the
   * name: one scan, emitting a space after the lower-case letter of each
   * match.
   */
  method ReplaceMatches(fontName: string) returns (r: string)
    ensures r == InsertSpaces(fontName)
  {
    r := [];
    var i := 0;
    while i < |fontName|
      invariant i <= |fontName|
      invariant r + InsertSpaces(fontName[i..]) == InsertSpaces(fontName)
    {
      var head := if IsBoundary(fontName, i) then [fontName[i], ' '] else [fontName[i]];
      InsertSpacesStep(fontName, i);
      InsertSpacesRegroup(r, head, InsertSpaces(fontName[i + 1..]));
      if IsBoundary(fontName, i) {
        r := r + [fontName[i], ' '];
      } else {
        r := r + [fontName[i]];
      }
      i := i + 1;
    }
  }

  /** One step of the scan: what position `i` contributes to the rewrite of the rest. */
  lemma InsertSpacesStep(s: string, i: nat)
    requires i < |s|
    ensures InsertSpaces(s[i..]) == (if IsBoundary(s, i) then [s[i], ' '] else [s[i]]) + InsertSpaces(s[i + 1..])
  {
    assert s[i..][1..] == s[i + 1..];
    assert IsBoundary(s[i..], 0) == IsBoundary(s, i);
  }

  lemma InsertSpacesRegroup(r: string, head: string, rest: string)
    ensures r + (head + rest) == (r + head) + rest
  {
  }

  /** `displayName`: boundaries spaced out, every `-` a space, nothing else changed. */
  method DisplayName(fontName: string) returns (name: string)
    ensures name == Displayed(fontName)
    ensures '-' !in name
    ensures |name| == |fontName| + Boundaries(fontName)
  {
    var spaced := ReplaceMatches(fontName);
    var components := Components(spaced, '-');
    name := Joined(components, ' ');
    JoinedComponents(spaced);
  }

  /** Replacing dashes by spaces creates no boundary: a space is not a letter. */
  lemma ReplaceDashesKeepsNoBoundaries(s: string)
    requires NoBoundaries(s)
    ensures NoBoundaries(ReplaceDashes(s))
  {
  }

  /** A second application of `displayName` changes nothing. */
  lemma DisplayedIdempotent(fontName: string)
    ensures Displayed(Displayed(fontName)) == Displayed(fontName)
  {
    var d := Displayed(fontName);
    InsertSpacesRemovesBoundaries(fontName);
    ReplaceDashesKeepsNoBoundaries(InsertSpaces(fontName));
    InsertSpacesWithoutBoundaries(d);
  }

  lemma DisplayedSample(fontName: string)
    requires fontName == "HelveticaNeue-Bold"
    ensures Displayed(fontName) == "Helvetica Neue Bold"
  {
    SpacedSample(fontName);
    var a, b := "Helvetica Neue", "Bold";
    ReplaceDashesAround(a, b);
    assert a + "-" + b == "Helvetica Neue-Bold";
    assert a + " " + b == "Helvetica Neue Bold";
  }

  lemma SpacedSample(fontName: string)
    requires fontName == "HelveticaNeue-Bold"
    ensures InsertSpaces(fontName) == "Helvetica Neue-Bold"
  {
    var a, b := "Helvetica", "Neue-Bold";
    SpacedPieces(a, b);
    HelveticaNeuePieces(a, b, fontName, "Helvetica Neue-Bold");
  }

  lemma HelveticaNeuePieces(a: string, b: string, joined: string, spaced: string)
    requires a == "Helvetica" && b == "Neue-Bold"
    requires joined == "HelveticaNeue-Bold" && spaced == "Helvetica Neue-Bold"
    ensures a + b == joined && a + " " + b == spaced
  {
  }

  lemma SpacedPieces(a: string, b: string)
    requires a == "Helvetica" && b == "Neue-Bold"
    ensures InsertSpaces(a + b) == a + " " + b
  {
    assert forall j :: 0 <= j < |a| - 1 ==> !IsBoundary(a, j);
    assert forall j :: 0 <= j < |b| - 1 ==> !IsBoundary(b, j);
    NoBoundaryTail(a);
    NoBoundaryTail(b);
    InsertSpacesAppend(a, b);
  }

  /** A single dash between two dash-free names becomes the one space between them. */
  lemma ReplaceDashesAround(a: string, b: string)
    requires '-' !in a && '-' !in b
    ensures ReplaceDashes(a + "-" + b) == a + " " + b
  {
  }

  /** The rewrite works piecewise: a space goes in at the seam exactly when the seam is a boundary. */
  lemma {:induction false} InsertSpacesAppend(a: string, b: string)
    requires a != [] && b != []
    ensures InsertSpaces(a + b) == InsertSpaces(a) + (if IsLower(a[|a| - 1]) && IsUpper(b[0]) then " " else "") + InsertSpaces(b)
  {
    var head := if IsBoundary(a + b, 0) then [a[0], ' '] else [a[0]];
    var t := (a + b)[1..];
    assert InsertSpaces(a + b) == head + InsertSpaces(t);
    if |a| == 1 {
      assert t == b;
      assert InsertSpaces(a) == [a[0]] by { assert a[1..] == []; }
      assert IsBoundary(a + b, 0) == (IsLower(a[0]) && IsUpper(b[0]));
      var seam := if IsLower(a[0]) && IsUpper(b[0]) then " " else "";
      assert head == [a[0]] + seam;
    } else {
      var rest := a[1..];
      assert t == rest + b;
      assert rest[|rest| - 1] == a[|a| - 1];
      InsertSpacesAppend(rest, b);
      assert IsBoundary(a + b, 0) == IsBoundary(a, 0);
      assert InsertSpaces(a) == head + InsertSpaces(rest);
      var seam := if IsLower(a[|a| - 1]) && IsUpper(b[0]) then " " else "";
      Regroup(head, InsertSpaces(rest), seam, InsertSpaces(b));
    }
  }

  lemma Regroup(w: string, x: string, y: string, z: string)
    ensures w + (x + y + z) == (w + x) + y + z
  {
  }

  /** A name with exactly one boundary, at `i`, gets exactly one space, after `s[i]`. */
  lemma {:induction false} SpacedAt(s: string, i: nat)
    requires IsBoundary(s, i)
    requires forall j :: 0 <= j < |s| - 1 && j != i ==> !IsBoundary(s, j)
    ensures InsertSpaces(s) == s[..i + 1] + " " + s[i + 1..]
  {
    if i == 0 {
      forall j | 0 <= j < |s[1..]| - 1
        ensures !IsBoundary(s[1..], j)
      {
        assert IsBoundary(s[1..], j) == IsBoundary(s, j + 1);
      }
      NoBoundaryTail(s[1..]);
      assert InsertSpaces(s) == [s[0], ' '] + InsertSpaces(s[1..]);
      assert s[..1] + " " == [s[0], ' '];
    } else {
      assert forall j :: 0 <= j < |s[1..]| - 1 && j != i - 1 ==> !IsBoundary(s[1..], j) by {
        forall j | 0 <= j < |s[1..]| - 1 && j != i - 1
          ensures !IsBoundary(s[1..], j)
        {
          assert IsBoundary(s[1..], j) == IsBoundary(s, j + 1);
        }
      }
      assert IsBoundary(s[1..], i - 1) == IsBoundary(s, i);
      SpacedAt(s[1..], i - 1);
      assert !IsBoundary(s, 0);
      assert InsertSpaces(s) == [s[0]] + InsertSpaces(s[1..]);
      assert s[..i + 1] == [s[0]] + s[1..][..i];
      assert s[i + 1..] == s[1..][i..];
      Regroup([s[0]], s[1..][..i], " ", s[1..][i..]);
    }
  }

  /** No boundary from index 1 on: nothing is inserted after the first letter. */
  lemma NoBoundaryTail(t: string)
    requires forall j :: 0 <= j < |t| - 1 ==> !IsBoundary(t, j)
    ensures InsertSpaces(t) == t
  {
    assert NoBoundaries(t) by {
      forall j | 0 <= j < |t| - 1
        ensures !(IsLower(t[j]) && IsUpper(t[j + 1]))
      {
        assert !IsBoundary(t, j);
      }
    }
    InsertSpacesWithoutBoundaries(t);
  }
}
