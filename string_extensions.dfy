/**
 * The `String` extensions of `String+LionheartExtensions.swift`, on ASCII
 * case mapping: first-letter case, trimming, spaces to dashes, the naming
 * format conversions, character-set membership, the mutating wrappers and
 * the `NSString` / `NSAttributedString` forwarding.
 */
module StringExtensions {
  import opened Wrappers
  import opened Ascii

  datatype VariableNamingFormat = camelCase | underscores | pascalCase

  /** `NSRange`: a location and a length. */
  datatype NSRange = NSRange(location: int, length: int)

  /** `nilIfEmpty`. */
  function NilIfEmpty(s: string): (r: Option<string>)
    ensures r.None? <==> s == []
    ensures r.Some? ==> r.value == s
  {
    if s == [] then None else Some(s)
  }

  /** The UTF-16 code units one scalar takes. */
  function CodeUnits(c: char): (n: nat)
    ensures n == 1 || n == 2
  {
    if c as int < 0x1_0000 then 1 else 2
  }

  /** `length`: the UTF-16 length of the string, as `NSString` counts it. */
  function Length(s: string): (n: nat)
    ensures |s| <= n <= 2 * |s|
  {
    if s == [] then 0 else Length(s[..|s| - 1]) + CodeUnits(s[|s| - 1])
  }

  /** The length equals the number of scalars exactly when none lies outside the Basic Multilingual Plane. */
  lemma {:induction false} LengthOfBmp(s: string)
    ensures Length(s) == |s| <==> forall i :: 0 <= i < |s| ==> s[i] as int < 0x1_0000
  {
    if s != [] {
      var p := s[..|s| - 1];
      LengthOfBmp(p);
      assert forall i :: 0 <= i < |p| ==> p[i] == s[i];
      if Length(s) == |s| {
        assert Length(p) == |p| && CodeUnits(s[|s| - 1]) == 1;
      }
    }
  }

  /** `range`: from 0 over the whole `length`. */
  function Range(s: string): (r: NSRange)
    ensures r.location == 0 && |s| <= r.length <= 2 * |s|
  {
    NSRange(0, Length(s))
  }

  /** `stringByLowercasingFirstLetter`; the source traps on `""`. */
  function LowercasingFirstLetter(s: string): (r: string)
    requires |s| > 0
    ensures |r| == |s| && r[0] == ToLower(s[0]) && r[1..] == s[1..]
    ensures !IsUpper(r[0])
  {
    Lowercased(s[..1]) + s[1..]
  }

  /** `stringByUppercasingFirstLetter`; the source traps on `""`. */
  function UppercasingFirstLetter(s: string): (r: string)
    requires |s| > 0
    ensures |r| == |s| && r[0] == ToUpper(s[0]) && r[1..] == s[1..]
    ensures !IsLower(r[0])
  {
    Uppercased(s[..1]) + s[1..]
  }

  lemma FirstLetterRoundTrip(s: string)
    requires |s| > 0 && IsLower(s[0])
    ensures LowercasingFirstLetter(UppercasingFirstLetter(s)) == s
  {
    var u := UppercasingFirstLetter(s);
    assert LowercasingFirstLetter(u)[1..] == s[1..];
    assert s == [s[0]] + s[1..];
  }

  // ---- Trimming: `trimmingCharacters(in:)` ----

  /** How many characters at the front lie in `cs`. */
  function LeadingCount(s: string, cs: set<char>): (n: nat)
    ensures n <= |s|
    ensures forall k :: 0 <= k < n ==> s[k] in cs
    ensures n < |s| ==> s[n] !in cs
  {
    if s == [] || s[0] !in cs then 0 else 1 + LeadingCount(s[1..], cs)
  }

  /** How many characters at the back lie in `cs`. */
  function TrailingCount(s: string, cs: set<char>): (n: nat)
    ensures n <= |s|
    ensures forall k :: |s| - n <= k < |s| ==> s[k] in cs
    ensures n < |s| ==> s[|s| - 1 - n] !in cs
  {
    if s == [] || s[|s| - 1] !in cs then 0 else 1 + TrailingCount(s[..|s| - 1], cs)
  }

  /**
   * `trimmingCharacters(in:)`: what is left after removing the characters of
   * `cs` from both ends. The result is the infix of `s` after the leading
   * run, everything after it lies in `cs`, and neither of its ends does.
   */
  function TrimmingCharacters(s: string, cs: set<char>): (r: string)
    ensures LeadingCount(s, cs) + |r| <= |s|
    ensures r == s[LeadingCount(s, cs)..LeadingCount(s, cs) + |r|]
    ensures forall k :: LeadingCount(s, cs) + |r| <= k < |s| ==> s[k] in cs
    ensures r == [] || (r[0] !in cs && r[|r| - 1] !in cs)
  {
    var i := LeadingCount(s, cs);
    var t := s[i..];
    t[..|t| - TrailingCount(t, cs)]
  }

  /** A string whose ends lie outside `cs` is left as it is. */
  lemma TrimFixed(s: string, cs: set<char>)
    requires s == [] || (s[0] !in cs && s[|s| - 1] !in cs)
    ensures TrimmingCharacters(s, cs) == s
  {
    if s != [] {
      assert LeadingCount(s, cs) == 0;
      assert TrailingCount(s, cs) == 0;
    }
  }

  lemma TrimIdempotent(s: string, cs: set<char>)
    ensures TrimmingCharacters(TrimmingCharacters(s, cs), cs) == TrimmingCharacters(s, cs)
  {
    TrimFixed(TrimmingCharacters(s, cs), cs);
  }

  /** Only characters of `cs` are removed: a string with none of them is unchanged. */
  lemma TrimWithoutMembers(s: string, cs: set<char>)
    requires forall k :: 0 <= k < |s| ==> s[k] !in cs
    ensures TrimmingCharacters(s, cs) == s
  {
    TrimFixed(s, cs);
  }

  // ---- Spaces to dashes ----

  /** `stringByReplacingSpacesWithDashes`: every space becomes `-`, then the string is lowercased. */
  function ReplacingSpacesWithDashes(s: string): (r: string)
    ensures |r| == |s|
    ensures forall i :: 0 <= i < |s| ==> r[i] == (if s[i] == ' ' then '-' else ToLower(s[i]))
    ensures forall i :: 0 <= i < |r| ==> r[i] != ' ' && !IsUpper(r[i])
  {
    var dashed := seq(|s|, i requires 0 <= i < |s| => if s[i] == ' ' then '-' else s[i]);
    Lowercased(dashed)
  }

  lemma ReplacingSpacesWithDashesIdempotent(s: string)
    ensures ReplacingSpacesWithDashes(ReplacingSpacesWithDashes(s)) == ReplacingSpacesWithDashes(s)
  {
  }

  // ---- `.underscores` ----

  /**
   * The regular expression `([A-Z]+)` replaced by `_$0`: one `_` before each
   * maximal run of capitals. `afterCapital` says whether the character before
   * `s` was a capital, so that a run continues.
   */
  function MarkCapitalRuns(s: string, afterCapital: bool): (r: string)
    ensures |r| >= |s|
  {
    if s == [] then []
    else if IsUpper(s[0]) && !afterCapital then ['_', s[0]] + MarkCapitalRuns(s[1..], true)
    else [s[0]] + MarkCapitalRuns(s[1..], IsUpper(s[0]))
  }

  /** Every capital either continues a run of capitals or follows a `_`. */
  predicate RunsMarked(r: string)
  {
    forall i :: 0 < i < |r| && IsUpper(r[i]) ==> IsUpper(r[i - 1]) || r[i - 1] == '_'
  }

  /** Every run of capitals in the result is preceded by an `_` (or continues the one before `s`). */
  lemma {:induction false} MarkCapitalRunsMarksEveryRun(s: string, afterCapital: bool)
    ensures RunsMarked(MarkCapitalRuns(s, afterCapital))
    ensures |MarkCapitalRuns(s, afterCapital)| > 0 && IsUpper(MarkCapitalRuns(s, afterCapital)[0]) ==> afterCapital
  {
    if s != [] {
      var r := MarkCapitalRuns(s, afterCapital);
      if IsUpper(s[0]) && !afterCapital {
        var rest := MarkCapitalRuns(s[1..], true);
        MarkCapitalRunsMarksEveryRun(s[1..], true);
        assert r == ['_', s[0]] + rest;
        forall i | 0 < i < |r| && IsUpper(r[i])
          ensures IsUpper(r[i - 1]) || r[i - 1] == '_'
        {
          if i == 1 {
            assert r[i - 1] == '_';
          } else if i == 2 {
            assert r[i - 1] == s[0];
          } else {
            assert r[i] == rest[i - 2] && r[i - 1] == rest[i - 3];
          }
        }
      } else {
        var rest := MarkCapitalRuns(s[1..], IsUpper(s[0]));
        MarkCapitalRunsMarksEveryRun(s[1..], IsUpper(s[0]));
        assert r == [s[0]] + rest;
        forall i | 0 < i < |r| && IsUpper(r[i])
          ensures IsUpper(r[i - 1]) || r[i - 1] == '_'
        {
          if i > 1 {
            assert r[i] == rest[i - 1] && r[i - 1] == rest[i - 2];
          }
        }
      }
    }
  }

  /**
   * The number of maximal runs of capitals that begin in `s`: the capitals
   * that follow a non-capital (or begin `s` when `afterCapital` is false).
   */
  function RunStarts(s: string, afterCapital: bool): (n: nat)
    ensures n <= |s|
    ensures n == 0 <== forall i :: 0 <= i < |s| ==> !IsUpper(s[i])
  {
    if s == [] then 0
    else (if IsUpper(s[0]) && !afterCapital then 1 else 0) + RunStarts(s[1..], IsUpper(s[0]))
  }

  /**
   * Exactly one `_` per run: the result is longer than `s` by the number of
   * runs, and all of that is underscores.
   */
  lemma {:induction false} MarkCapitalRunsOnePerRun(s: string, afterCapital: bool)
    ensures |MarkCapitalRuns(s, afterCapital)| == |s| + RunStarts(s, afterCapital)
    ensures Count(MarkCapitalRuns(s, afterCapital), '_') == Count(s, '_') + RunStarts(s, afterCapital)
  {
    if s != [] {
      var next := IsUpper(s[0]);
      var rest := MarkCapitalRuns(s[1..], next);
      MarkCapitalRunsOnePerRun(s[1..], next);
      assert s == [s[0]] + s[1..];
      CountAppend([s[0]], s[1..], '_');
      CountAppend([s[0]], rest, '_');
      if IsUpper(s[0]) && !afterCapital {
        CountAppend(['_'], [s[0]] + rest, '_');
        assert ['_', s[0]] + rest == ['_'] + ([s[0]] + rest);
      }
    }
  }

  /** The result ends as the input does, and starts as it does unless that is a capital. */
  lemma {:induction false} MarkCapitalRunsEnds(s: string, afterCapital: bool)
    requires |s| > 0
    ensures var r := MarkCapitalRuns(s, afterCapital);
            && r[|r| - 1] == s[|s| - 1]
            && (!IsUpper(s[0]) ==> r[0] == s[0])
  {
    if |s| > 1 {
      MarkCapitalRunsEnds(s[1..], if IsUpper(s[0]) then true else false);
    }
  }

  /** A string without capitals is left as it is. */
  lemma {:induction false} MarkCapitalRunsWithoutCapitals(s: string, afterCapital: bool)
    requires forall i :: 0 <= i < |s| ==> !IsUpper(s[i])
    ensures MarkCapitalRuns(s, afterCapital) == s
  {
    if s != [] {
      MarkCapitalRunsWithoutCapitals(s[1..], false);
      assert s == [s[0]] + s[1..];
    }
  }

  /** `s` with every `c` removed. */
  function Without(s: string, c: char): (r: string)
    ensures |r| <= |s|
    ensures forall i :: 0 <= i < |r| ==> r[i] != c
  {
    if s == [] then [] else (if s[0] == c then [] else [s[0]]) + Without(s[1..], c)
  }

  /** The replacement only inserts underscores: without them, the text is the input's. */
  lemma {:induction false} MarkCapitalRunsInsertsOnlyUnderscores(s: string, afterCapital: bool)
    ensures Without(MarkCapitalRuns(s, afterCapital), '_') == Without(s, '_')
  {
    if s != [] {
      if IsUpper(s[0]) && !afterCapital {
        var rest := MarkCapitalRuns(s[1..], true);
        MarkCapitalRunsInsertsOnlyUnderscores(s[1..], true);
        var r := ['_', s[0]] + rest;
        assert r[1..] == [s[0]] + rest;
        assert ([s[0]] + rest)[1..] == rest;
      } else {
        var rest := MarkCapitalRuns(s[1..], IsUpper(s[0]));
        MarkCapitalRunsInsertsOnlyUnderscores(s[1..], IsUpper(s[0]));
        assert ([s[0]] + rest)[1..] == rest;
      }
    }
  }

  /**
   * `.underscores`: mark the capital runs, trim `_` from both ends,
   * lowercase, and put back one `_` when the input began with one.
   */
  function Underscores(s: string): (r: string)
    ensures forall i :: 0 <= i < |r| ==> !IsUpper(r[i])
    ensures (|r| > 0 && r[0] == '_') <==> (|s| > 0 && s[0] == '_')
  {
    var newString := Lowercased(TrimmingCharacters(MarkCapitalRuns(s, false), {'_'}));
    if |s| > 0 && s[0] == '_' then "_" + newString else newString
  }

  /**
   * One `_` per run survives the conversion of an input that neither begins
   * nor ends with `_`: the trimming removes only the one put before a
   * leading capital, so the result has the input's underscores plus one per
   * run of capitals that does not begin the string.
   */
  lemma UnderscoresOnePerRun(s: string)
    requires s == [] || (s[0] != '_' && s[|s| - 1] != '_')
    ensures var lead := if s != [] && IsUpper(s[0]) then 1 else 0;
            && |Underscores(s)| == |s| + RunStarts(s, false) - lead
            && Count(Underscores(s), '_') == Count(s, '_') + RunStarts(s, false) - lead
  {
    if s != [] {
      var m := MarkCapitalRuns(s, false);
      MarkCapitalRunsOnePerRun(s, false);
      var t := TrimmedMarks(s);
      CountLowercased(t, '_');
      UnderscoresSteps(s, m, t, Lowercased(t));
    }
  }

  /** Trimming the marked input removes just the `_` before a leading capital. */
  lemma TrimmedMarks(s: string) returns (t: string)
    requires s != [] && s[0] != '_' && s[|s| - 1] != '_'
    ensures var m, lead := MarkCapitalRuns(s, false), if IsUpper(s[0]) then 1 else 0;
            && TrimmingCharacters(m, {'_'}) == t
            && |t| == |m| - lead && Count(t, '_') == Count(m, '_') - lead
  {
    var m := MarkCapitalRuns(s, false);
    MarkCapitalRunsEnds(s, false);
    if IsUpper(s[0]) {
      t := m[1..];
      assert m == ['_', s[0]] + MarkCapitalRuns(s[1..], true);
      assert m == "_" + t;
      TrimLeadingUnderscore(t);
      CountAppend("_", t, '_');
      assert "_"[..0] == [];
    } else {
      t := m;
      TrimFixed(m, {'_'});
    }
  }

  lemma LowercasedOfLower(s: string)
    requires forall i :: 0 <= i < |s| ==> !IsUpper(s[i])
    ensures Lowercased(s) == s
  {
  }

  lemma LowercasedAppend(a: string, b: string)
    ensures Lowercased(a + b) == Lowercased(a) + Lowercased(b)
  {
  }

  /** Converting an already converted string changes nothing. */
  lemma UnderscoresIdempotent(s: string)
    ensures Underscores(Underscores(s)) == Underscores(s)
  {
    var lead := |s| > 0 && s[0] == '_';
    var t := TrimmingCharacters(MarkCapitalRuns(s, false), {'_'});
    var n := Lowercased(t);
    assert n == [] || (n[0] != '_' && n[|n| - 1] != '_') by {
      if n != [] {
        assert n[0] == ToLower(t[0]) && n[|n| - 1] == ToLower(t[|t| - 1]);
      }
    }
    var r := Underscores(s);
    UnderscoresSteps(s, MarkCapitalRuns(s, false), t, n);
    MarkCapitalRunsWithoutCapitals(r, false);
    TrimAfterConversion(n, lead);
    LowercasedOfLower(n);
    UnderscoresSteps(r, r, n, n);
  }

  /** The trimming undoes the `_` put back in front, and leaves the rest. */
  lemma TrimAfterConversion(n: string, lead: bool)
    requires n == [] || (n[0] != '_' && n[|n| - 1] != '_')
    ensures TrimmingCharacters(if lead then "_" + n else n, {'_'}) == n
  {
    if lead {
      if n == [] {
        assert "_" + n == "_";
        assert LeadingCount("_", {'_'}) == 1 by { assert "_"[1..] == []; }
      } else {
        TrimLeadingUnderscore(n);
      }
    } else {
      TrimFixed(n, {'_'});
    }
  }

  lemma UnderscoresSample(s: string)
    requires s == "fooBar"
    ensures Underscores(s) == "foo_bar"
  {
    MarkFooBarSample(s);
    TrimFixed("foo_Bar", {'_'});
    LowercasedSample("foo_Bar", "foo_bar");
    UnderscoresSteps(s, "foo_Bar", "foo_Bar", "foo_bar");
  }

  /** A leading capital gets an `_` that the trimming removes again. */
  lemma UnderscoresLeadingCapitalSample(s: string)
    requires s == "FooBar"
    ensures Underscores(s) == "foo_bar"
  {
    MarkLeadingCapitalSample(s);
    TrimUnderscoreSample("_Foo_Bar", "Foo_Bar");
    LowercasedFooBar("Foo_Bar", "foo_bar");
    UnderscoresSteps(s, "_Foo_Bar", "Foo_Bar", "foo_bar");
  }

  lemma LowercasedFooBar(n: string, t: string)
    requires n == "Foo_Bar" && t == "foo_bar"
    ensures Lowercased(n) == t
  {
    LowercasedSample(n, t);
  }

  /** A run of capitals gets a single `_`, and a leading `_` is put back. */
  lemma UnderscoresRunSample(s: string)
    requires s == "_idURL"
    ensures Underscores(s) == "_id_url"
  {
    var w := s[1..];
    LeadingUnderscoreSplit(s, w);
    UnderscoresIdUrlSample(w);
    UnderscoresKeepsLeadingUnderscore(w);
    LeadingUnderscoreJoin("id_url", "_id_url");
  }

  lemma LeadingUnderscoreSplit(s: string, w: string)
    requires s == "_idURL" && w == s[1..]
    ensures s == "_" + w && w == "idURL"
  {
  }

  lemma LeadingUnderscoreJoin(t: string, u: string)
    requires t == "id_url" && u == "_id_url"
    ensures "_" + t == u
  {
  }

  lemma UnderscoresIdUrlSample(s: string)
    requires s == "idURL"
    ensures Underscores(s) == "id_url"
  {
    MarkIdUrlSample(s);
    TrimFixed("id_URL", {'_'});
    LowercasedSample("id_URL", "id_url");
    UnderscoresSteps(s, "id_URL", "id_URL", "id_url");
  }

  /** Removing an end character of the set first changes nothing. */
  lemma TrimMemberPrefix(c: char, x: string, cs: set<char>)
    requires c in cs
    ensures TrimmingCharacters([c] + x, cs) == TrimmingCharacters(x, cs)
  {
    var s := [c] + x;
    assert s[1..] == x;
    assert LeadingCount(s, cs) == 1 + LeadingCount(x, cs);
    assert s[LeadingCount(s, cs)..] == x[LeadingCount(x, cs)..];
  }

  /** A leading `_` survives the conversion and the rest converts on its own. */
  lemma UnderscoresKeepsLeadingUnderscore(w: string)
    requires w == [] || w[0] != '_'
    ensures Underscores("_" + w) == "_" + Underscores(w)
  {
    var s := "_" + w;
    assert s[1..] == w;
    assert MarkCapitalRuns(s, false) == "_" + MarkCapitalRuns(w, false);
    TrimMemberPrefix('_', MarkCapitalRuns(w, false), {'_'});
  }

  /** `Underscores` from its three stages. */
  lemma UnderscoresSteps(s: string, m: string, n: string, t: string)
    requires MarkCapitalRuns(s, false) == m
    requires TrimmingCharacters(m, {'_'}) == n
    requires Lowercased(n) == t
    ensures Underscores(s) == if |s| > 0 && s[0] == '_' then "_" + t else t
  {
  }

  lemma TrimUnderscoreSample(m: string, n: string)
    requires m == "_Foo_Bar" && n == "Foo_Bar"
    ensures TrimmingCharacters(m, {'_'}) == n
  {
    assert m == "_" + n;
    TrimLeadingUnderscore(n);
  }

  lemma LowercasedSample(s: string, t: string)
    requires |s| == |t| && forall i :: 0 <= i < |s| ==> t[i] == ToLower(s[i])
    ensures Lowercased(s) == t
  {
    assert forall i :: 0 <= i < |s| ==> Lowercased(s)[i] == t[i];
  }

  lemma MarkFooBarSample(s: string)
    requires s == "fooBar"
    ensures MarkCapitalRuns(s, false) == "foo_Bar"
  {
    MarkBarSample();
    assert "oBar"[1..] == "Bar";
    assert MarkCapitalRuns("oBar", false) == "o_Bar";
    assert "ooBar"[1..] == "oBar";
    assert MarkCapitalRuns("ooBar", false) == "oo_Bar";
    assert "fooBar"[1..] == "ooBar";
  }

  lemma MarkLeadingCapitalSample(s: string)
    requires s == "FooBar"
    ensures MarkCapitalRuns(s, false) == "_Foo_Bar"
  {
    MarkBarSample();
    assert "oBar"[1..] == "Bar";
    assert MarkCapitalRuns("oBar", false) == "o_Bar";
    assert "ooBar"[1..] == "oBar";
    assert MarkCapitalRuns("ooBar", true) == "oo_Bar";
    assert "FooBar"[1..] == "ooBar";
  }

  lemma MarkBarSample()
    ensures MarkCapitalRuns("Bar", false) == "_Bar"
  {
    assert "r"[1..] == [];
    assert MarkCapitalRuns("r", false) == "r";
    assert "ar"[1..] == "r";
    assert MarkCapitalRuns("ar", true) == "ar";
    assert "Bar"[1..] == "ar";
  }

  lemma MarkIdUrlSample(s: string)
    requires s == "idURL"
    ensures MarkCapitalRuns(s, false) == "id_URL"
  {
    MarkCapitalSample();
    assert "dURL"[1..] == "URL";
    assert MarkCapitalRuns("dURL", false) == "d_URL";
    assert "idURL"[1..] == "dURL";
  }

  lemma MarkCapitalSample()
    ensures MarkCapitalRuns("URL", false) == "_URL"
  {
    assert "L"[1..] == [];
    assert MarkCapitalRuns("L", true) == "L";
    assert "RL"[1..] == "L";
    assert MarkCapitalRuns("RL", true) == "RL";
    assert "URL"[1..] == "RL";
  }

  lemma TrimLeadingUnderscore(n: string)
    requires |n| > 0 && n[0] != '_' && n[|n| - 1] != '_'
    ensures TrimmingCharacters("_" + n, {'_'}) == n
  {
    var s := "_" + n;
    assert s[1..] == n;
    assert LeadingCount(s[1..], {'_'}) == 0;
    assert LeadingCount(s, {'_'}) == 1;
    assert TrailingCount(n, {'_'}) == 0;
  }

  // ---- `.pascalCase` ----

  /**
   * `.pascalCase` as a function of the rest of the input and the
   * `uppercaseNextCharacter` flag: `_` is dropped and sets the flag, the
   * next other character is uppercased and clears it.
   */
  function PascalFrom(s: string, uppercaseNext: bool): (r: string)
  {
    if s == [] then []
    else if s[0] == '_' then PascalFrom(s[1..], true)
    else [if uppercaseNext then ToUpper(s[0]) else s[0]] + PascalFrom(s[1..], false)
  }

  /**
   * `.pascalCase`: no underscore is left, and the length drops by the number
   * of underscores. Which character lands where is PascalCaseAt.
   */
  function PascalCase(s: string): (r: string)
    ensures forall i :: 0 <= i < |r| ==> r[i] != '_'
    ensures |r| == |s| - Count(s, '_')
  {
    PascalFromShape(s, false);
    PascalFrom(s, false)
  }

  /** One step of the `.pascalCase` loop, at position `i`. */
  lemma PascalFromStep(s: string, i: nat, uppercaseNext: bool)
    requires i < |s|
    ensures PascalFrom(s[i..], uppercaseNext)
            == if s[i] == '_' then PascalFrom(s[i + 1..], true)
               else [if uppercaseNext then ToUpper(s[i]) else s[i]] + PascalFrom(s[i + 1..], false)
  {
    assert s[i..][1..] == s[i + 1..];
  }

  /** No underscore survives, and the length drops by the underscores. */
  lemma {:induction false} PascalFromShape(s: string, uppercaseNext: bool)
    ensures forall i :: 0 <= i < |PascalFrom(s, uppercaseNext)| ==> PascalFrom(s, uppercaseNext)[i] != '_'
    ensures |PascalFrom(s, uppercaseNext)| == |s| - Count(s, '_')
  {
    if s != [] {
      PascalFromShape(s[1..], s[0] == '_');
      assert s == [s[0]] + s[1..];
      CountAppend([s[0]], s[1..], '_');
      assert [s[0]][..0] == [];
      if s[0] != '_' {
        var c := if uppercaseNext then ToUpper(s[0]) else s[0];
        assert c != '_';
        var rest := PascalFrom(s[1..], false);
        assert forall i :: 1 <= i < |[c] + rest| ==> ([c] + rest)[i] == rest[i - 1];
      }
    }
  }

  /**
   * Where each character that is not `_` ends up: position `i` moves left by
   * the underscores before it, and is uppercased exactly when the flag is
   * set for it, that is, when an underscore comes right before it (or, at
   * the start, when `uppercaseNext` is given).
   */
  lemma {:induction false} PascalFromAt(s: string, uppercaseNext: bool, i: nat)
    requires i < |s| && s[i] != '_'
    ensures i - Count(s[..i], '_') < |PascalFrom(s, uppercaseNext)|
    ensures PascalFrom(s, uppercaseNext)[i - Count(s[..i], '_')]
            == if (i == 0 && uppercaseNext) || (i > 0 && s[i - 1] == '_') then ToUpper(s[i]) else s[i]
  {
    if i > 0 {
      PascalFromAt(s[1..], s[0] == '_', i - 1);
      assert s[..i] == [s[0]] + s[1..][..i - 1];
      CountAppend([s[0]], s[1..][..i - 1], '_');
      assert [s[0]][..0] == [];
      if i > 1 {
        assert s[1..][i - 2] == s[i - 1];
      }
    }
  }

  /** `.pascalCase` drops every `_`, uppercases the character right after one, and copies every other character. */
  lemma PascalCaseAt(s: string, i: nat)
    requires i < |s| && s[i] != '_'
    ensures i - Count(s[..i], '_') < |PascalCase(s)|
    ensures PascalCase(s)[i - Count(s[..i], '_')] == if i > 0 && s[i - 1] == '_' then ToUpper(s[i]) else s[i]
  {
    PascalFromAt(s, false, i);
  }

  /** Without underscores there is nothing to do. */
  lemma {:induction false} PascalCaseWithoutUnderscores(s: string)
    requires forall i :: 0 <= i < |s| ==> s[i] != '_'
    ensures PascalCase(s) == s
  {
    if s != [] {
      PascalCaseWithoutUnderscores(s[1..]);
      assert s == [s[0]] + s[1..];
    }
  }

  lemma PascalCaseSample()
    ensures PascalCase("foo_bar") == "fooBar"
  {
    assert "foo_bar"[1..] == "oo_bar" && "oo_bar"[1..] == "o_bar" && "o_bar"[1..] == "_bar";
    assert "_bar"[1..] == "bar" && "bar"[1..] == "ar" && "ar"[1..] == "r" && "r"[1..] == [];
  }

  /** No underscore, no adjacent capitals and no capital in front: the naming of a camel-case identifier. */
  predicate IsCamelIdentifier(s: string)
  {
    && (forall i :: 0 <= i < |s| ==> s[i] != '_')
    && (forall i :: 0 < i < |s| ==> !(IsUpper(s[i - 1]) && IsUpper(s[i])))
    && (|s| == 0 || !IsUpper(s[0]))
  }

  /** `.pascalCase` undoes `.underscores` on a camel-case identifier. */
  lemma PascalCaseUndoesUnderscores(s: string)
    requires IsCamelIdentifier(s)
    ensures PascalCase(Underscores(s)) == s
  {
    var m := MarkCapitalRuns(s, false);
    if s != [] {
      MarkCapitalRunsEnds(s, false);
    }
    TrimFixed(m, {'_'});
    PascalAfterMarking(s, false);
  }

  lemma {:induction false} PascalAfterMarking(s: string, afterCapital: bool)
    requires forall i :: 0 <= i < |s| ==> s[i] != '_'
    requires forall i :: 0 < i < |s| ==> !(IsUpper(s[i - 1]) && IsUpper(s[i]))
    requires afterCapital && |s| > 0 ==> !IsUpper(s[0])
    ensures PascalFrom(Lowercased(MarkCapitalRuns(s, afterCapital)), false) == s
  {
    if s != [] {
      var t := s[1..];
      assert s == [s[0]] + t;
      if IsUpper(s[0]) && !afterCapital {
        var rest := MarkCapitalRuns(t, true);
        PascalAfterMarking(t, true);
        LowercasedAppend(['_', s[0]], rest);
        assert Lowercased(['_', s[0]]) == ['_', ToLower(s[0])];
        PascalMarkedCapital(s[0], Lowercased(rest), t);
      } else {
        var rest := MarkCapitalRuns(t, IsUpper(s[0]));
        PascalAfterMarking(t, IsUpper(s[0]));
        LowercasedAppend([s[0]], rest);
        assert Lowercased([s[0]]) == [s[0]];
        PascalMarkedOther(s[0], Lowercased(rest), t);
      }
    }
  }

  /** A marked capital, `_` and its lowercase, becomes the capital again. */
  lemma PascalMarkedCapital(c: char, l: string, t: string)
    requires IsUpper(c) && PascalFrom(l, false) == t
    ensures PascalFrom(['_', ToLower(c)] + l, false) == [c] + t
  {
    var x := ['_', ToLower(c)] + l;
    assert x[1..] == [ToLower(c)] + l;
    assert x[1..][1..] == l;
  }

  /** Any other character passes through unchanged. */
  lemma PascalMarkedOther(c: char, l: string, t: string)
    requires c != '_' && !IsUpper(c) && PascalFrom(l, false) == t
    ensures PascalFrom([c] + l, false) == [c] + t
  {
    assert ([c] + l)[1..] == l;
  }

  /** What `stringByConverting(toNamingFormat:)` returns; `.camelCase` traps in the source. */
  function Converted(s: string, naming: VariableNamingFormat): (r: string)
    requires naming != camelCase
    ensures naming == underscores ==> forall i :: 0 <= i < |r| ==> !IsUpper(r[i])
    ensures naming == pascalCase ==> forall i :: 0 <= i < |r| ==> r[i] != '_'
  {
    match naming
    case underscores => Underscores(s)
    case pascalCase => PascalCase(s)
  }

  /** `stringByConverting(toNamingFormat:)`, with the source's loop for `.pascalCase`. */
  method StringByConverting(s: string, naming: VariableNamingFormat) returns (r: string)
    requires naming != camelCase
    ensures r == Converted(s, naming)
  {
    match naming
    case underscores =>
      r := Underscores(s);
    case pascalCase =>
      r := PascalCaseLoop(s);
  }

  /** The `.pascalCase` loop of `stringByConverting(toNamingFormat:)`. */
  method PascalCaseLoop(s: string) returns (r: string)
    ensures r == PascalCase(s)
  {
    var uppercaseNextCharacter := false;
    var result := "";
    assert s[0..] == s;
    for i := 0 to |s|
      invariant result + PascalFrom(s[i..], uppercaseNextCharacter) == PascalCase(s)
    {
      PascalFromStep(s, i, uppercaseNextCharacter);
      if s[i] == '_' {
        uppercaseNextCharacter := true;
      } else {
        if uppercaseNextCharacter {
          AppendAssoc(result, [ToUpper(s[i])], PascalFrom(s[i + 1..], false));
          result := result + [ToUpper(s[i])];
          uppercaseNextCharacter := false;
        } else {
          AppendAssoc(result, [s[i]], PascalFrom(s[i + 1..], false));
          result := result + [s[i]];
        }
      }
    }
    r := result;
  }

  lemma AppendAssoc(a: string, b: string, c: string)
    ensures a + b + c == a + (b + c)
  {
  }

  /** `isComposedOf(charactersInSet:)`: stops at the first character outside the set. */
  method IsComposedOf(s: string, characterSet: set<char>) returns (b: bool)
    ensures b <==> forall i :: 0 <= i < |s| ==> s[i] in characterSet
  {
    for i := 0 to |s|
      invariant forall k :: 0 <= k < i ==> s[k] in characterSet
    {
      if s[i] !in characterSet {
        return false;
      }
    }
    return true;
  }

  /** The `mutating` methods, on a string variable that they reassign. */
  class MutableString {
    var value: string

    constructor (value: string)
      ensures this.value == value
    {
      this.value := value;
    }

    /** `trim(_:)`. */
    method Trim(characterSet: set<char>)
      modifies this
      ensures value == TrimmingCharacters(old(value), characterSet)
    {
      value := TrimmingCharacters(value, characterSet);
    }

    /** `replaceSpacesWithDashes()`. */
    method ReplaceSpacesWithDashes()
      modifies this
      ensures value == ReplacingSpacesWithDashes(old(value))
    {
      value := ReplacingSpacesWithDashes(value);
    }

    /** `replaceCapitalsWithUnderscores()`. */
    method ReplaceCapitalsWithUnderscores()
      modifies this
      ensures value == Underscores(old(value))
    {
      value := StringByConverting(value, underscores);
    }

    /** `convert(toNamingFormat:)`. */
    method Convert(naming: VariableNamingFormat)
      requires naming != camelCase
      modifies this
      ensures value == Converted(old(value), naming)
    {
      value := StringByConverting(value, naming);
    }
  }

  // ---- `NSString` and `NSAttributedString` forwarding ----

  /** `NSString.stringByUppercasingFirstLetter` as written: it forwards to the lowercasing one. */
  function NSStringUppercasingFirstLetter(s: string): (r: string)
    requires |s| > 0
    ensures |r| == |s| && r[0] == ToLower(s[0]) && r[1..] == s[1..]
    ensures !IsUpper(r[0])
  {
    LowercasingFirstLetter(s)
  }

  /** `NSAttributedString.stringByUppercasingFirstLetter` as written: it forwards to the lowercasing one. */
  function NSAttributedStringUppercasingFirstLetter(s: string): (r: string)
    requires |s| > 0
    ensures |r| == |s| && r[0] == ToLower(s[0]) && r[1..] == s[1..]
    ensures !IsUpper(r[0])
  {
    LowercasingFirstLetter(s)
  }

  /** The forwarding the name promises. */
  function NSStringUppercasingFirstLetterCorrected(s: string): (r: string)
    requires |s| > 0
    ensures |r| == |s| && !IsLower(r[0]) && r[1..] == s[1..]
  {
    UppercasingFirstLetter(s)
  }

  /** Both uppercasing forwards lowercase instead: `"Abc"` comes back as `"abc"`. */
  lemma UppercasingForwardingLowercases()
    ensures NSStringUppercasingFirstLetter("Abc") == "abc"
    ensures NSAttributedStringUppercasingFirstLetter("Abc") == "abc"
    ensures NSStringUppercasingFirstLetterCorrected("abc") == "Abc"
  {
    assert "Abc"[..1] == "A" && "Abc"[1..] == "bc";
    assert "abc"[..1] == "a" && "abc"[1..] == "bc";
  }

  /** `NSAttributedString.stringByConverting(toNamingFormat:)` as written: the argument is ignored. */
  method NSAttributedStringConverting(s: string, naming: VariableNamingFormat) returns (r: string)
    ensures r == Underscores(s)
  {
    r := StringByConverting(s, underscores);
  }

  /** The forwarding that honours the argument, as `NSString`'s does. */
  method NSAttributedStringConvertingCorrected(s: string, naming: VariableNamingFormat) returns (r: string)
    requires naming != camelCase
    ensures r == Converted(s, naming)
  {
    r := StringByConverting(s, naming);
  }

  /** Asked for `.pascalCase`, the attributed-string forward gives `"foo_bar"` where `"fooBar"` is meant. */
  lemma AttributedConvertingIgnoresNaming(s: string)
    requires s == "foo_bar"
    ensures Underscores(s) == s
    ensures Converted(s, pascalCase) == "fooBar"
  {
    assert forall i :: 0 <= i < |s| ==> !IsUpper(s[i]);
    MarkCapitalRunsWithoutCapitals(s, false);
    TrimFixed(s, {'_'});
    LowercasedOfLower(s);
    UnderscoresSteps(s, s, s, s);
    PascalCaseSample();
  }

  /** `NSString.stringByConverting(toNamingFormat:)` forwards faithfully. */
  method NSStringConverting(s: string, naming: VariableNamingFormat) returns (r: string)
    requires naming != camelCase
    ensures r == Converted(s, naming)
  {
    r := StringByConverting(s, naming);
  }

  /**
   * The other forwards pass the string through: `range`, the lowercasing of
   * the first letter and the dash replacement give what `String`'s give.
   */
  function NSStringRange(s: string): (r: NSRange)
    ensures r.location == 0 && r.length == Length(s)
  {
    Range(s)
  }

  function NSStringLowercasingFirstLetter(s: string): (r: string)
    requires |s| > 0
    ensures |r| == |s| && r[0] == ToLower(s[0]) && r[1..] == s[1..]
  {
    LowercasingFirstLetter(s)
  }

  function NSStringReplacingSpacesWithDashes(s: string): (r: string)
    ensures |r| == |s|
    ensures forall i :: 0 <= i < |s| ==> r[i] == (if s[i] == ' ' then '-' else ToLower(s[i]))
  {
    ReplacingSpacesWithDashes(s)
  }

  function NSAttributedStringRange(s: string): (r: NSRange)
    ensures r.location == 0 && r.length == Length(s)
  {
    Range(s)
  }

  function NSAttributedStringLowercasingFirstLetter(s: string): (r: string)
    requires |s| > 0
    ensures |r| == |s| && r[0] == ToLower(s[0]) && r[1..] == s[1..]
  {
    LowercasingFirstLetter(s)
  }

  function NSAttributedStringReplacingSpacesWithDashes(s: string): (r: string)
    ensures |r| == |s|
    ensures forall i :: 0 <= i < |s| ==> r[i] == (if s[i] == ' ' then '-' else ToLower(s[i]))
  {
    ReplacingSpacesWithDashes(s)
  }
}
