/**
 * `DateFormatter.formatter(dateStrings:)` of
 * `DateFormatter+LionheartExtensions.swift`: it picks a date format from a
 * fixed list of candidates, chosen by how many spaces the inputs contain,
 * and returns the first one that parses every input.
 *
 * Whether a formatter parses a string (`date(from:)`, which is ICU's date
 * parser) is the parameter `parses`.
 */
module DateFormatters {
  import opened Wrappers
  import opened Ascii

  const DateComponent1: string := "MM-dd-yyyy"
  const DateComponent2: string := "dd-MM-yyyy"
  const DateComponent3: string := "yyyy-MM-dd"
  const DateComponent4: string := "yyyy-dd-MM"
  const DateComponent5: string := "yyyy-MM-dd'T'HH:mm:ssZ"

  const TimeComponent1: string := "HH:mm"
  const TimeComponent2: string := "hh:mm a"
  const TimeComponent3: string := "HH:mm:ss"
  const TimeComponent4: string := "hh:mm:ss a"
  const TimeComponent5: string := "HH:mm:ss Z"
  const TimeComponent6: string := "hh:mm:ss a Z"

  /** The date formats, tried on their own when the inputs hold no space. */
  const NoSpaceFormatStrings: seq<string> :=
    [DateComponent1, DateComponent2, DateComponent3, DateComponent4, DateComponent5]

  /** The time formats appended to a date format, by the number of spaces in the inputs. */
  const OneSpaceFormatStrings: seq<string> := [TimeComponent1, TimeComponent3]
  const TwoSpaceFormatStrings: seq<string> := [TimeComponent2, TimeComponent4, TimeComponent5]
  const ThreeSpaceFormatStrings: seq<string> := [TimeComponent6]

  const PosixLocale: string := "en_US_POSIX"

  /** The two properties `init(format:)` sets. */
  datatype DateFormatter = DateFormatter(locale: string, dateFormat: string)

  /** `DateFormatter(format:)`: the POSIX locale and exactly `format`. */
  function WithFormat(format: string): (f: DateFormatter)
    ensures f.locale == PosixLocale && f.dateFormat == format
  {
    DateFormatter(PosixLocale, format)
  }

  /** The number of spaces, as `filter({ $0 == " " }).count` finds them. */
  function Spaces(s: string): nat
  {
    Count(s, ' ')
  }

  /** The space count the inputs share; `nil` for no inputs or inputs that disagree. */
  function CommonSpaces(dateStrings: seq<string>): Option<nat>
  {
    if dateStrings == [] then None
    else if forall i :: 0 <= i < |dateStrings| ==> Spaces(dateStrings[i]) == Spaces(dateStrings[0])
    then Some(Spaces(dateStrings[0]))
    else None
  }

  function TimeFormatStrings(spaces: nat): Option<seq<string>>
  {
    if spaces == 1 then Some(OneSpaceFormatStrings)
    else if spaces == 2 then Some(TwoSpaceFormatStrings)
    else if spaces == 3 then Some(ThreeSpaceFormatStrings)
    else None
  }

  /** Formatters for `date` followed by a space and each time format, in order. */
  function Row(date: string, times: seq<string>): (r: seq<DateFormatter>)
    ensures |r| == |times|
    ensures forall j :: 0 <= j < |times| ==> r[j] == WithFormat(date + " " + times[j])
  {
    seq(|times|, j requires 0 <= j < |times| => WithFormat(date + " " + times[j]))
  }

  /** Every date format with every time format, date-major. */
  function Combined(dates: seq<string>, times: seq<string>): (r: seq<DateFormatter>)
    ensures |r| == |dates| * |times|
  {
    if dates == [] then []
    else Combined(dates[..|dates| - 1], times) + Row(dates[|dates| - 1], times)
  }

  /** The candidate formatters for inputs with `spaces` spaces; `nil` beyond three. */
  function Candidates(spaces: nat): (r: Option<seq<DateFormatter>>)
    ensures r.Some? <==> spaces <= 3
  {
    if spaces == 0 then Some(seq(|NoSpaceFormatStrings|, i requires 0 <= i < |NoSpaceFormatStrings| => WithFormat(NoSpaceFormatStrings[i])))
    else match TimeFormatStrings(spaces)
      case None => None
      case Some(times) => Some(Combined(NoSpaceFormatStrings, times))
  }

  /** `formatter.date(from:)` succeeds on every input. */
  predicate ParsesAll(f: DateFormatter, dateStrings: seq<string>, parses: (DateFormatter, string) -> bool)
  {
    forall i :: 0 <= i < |dateStrings| ==> parses(f, dateStrings[i])
  }

  /** The first formatter that parses every input. */
  function FirstParsingAll(formatters: seq<DateFormatter>, dateStrings: seq<string>,
                           parses: (DateFormatter, string) -> bool): Option<DateFormatter>
  {
    if formatters == [] then None
    else if ParsesAll(formatters[0], dateStrings, parses) then Some(formatters[0])
    else FirstParsingAll(formatters[1..], dateStrings, parses)
  }

  /** What `formatter(dateStrings:)` returns. */
  function FormatterFor(dateStrings: seq<string>, parses: (DateFormatter, string) -> bool): (r: Option<DateFormatter>)
    ensures r.Some? ==> CommonSpaces(dateStrings).Some? && CommonSpaces(dateStrings).value <= 3
  {
    match CommonSpaces(dateStrings)
    case None => None
    case Some(n) =>
      match Candidates(n)
      case None => None
      case Some(formatters) => FirstParsingAll(formatters, dateStrings, parses)
  }

  /** `formatter(dateStrings:)`. */
  method Formatter(dateStrings: seq<string>, parses: (DateFormatter, string) -> bool)
    returns (formatter: Option<DateFormatter>)
    ensures formatter == FormatterFor(dateStrings, parses)
  {
    var numberOfSpaces: Option<nat> := None;
    for k := 0 to |dateStrings|
      invariant numberOfSpaces.None? <==> k == 0
      invariant numberOfSpaces.Some? ==> numberOfSpaces.value == Spaces(dateStrings[0])
      invariant forall i :: 0 <= i < k ==> Spaces(dateStrings[i]) == Spaces(dateStrings[0])
    {
      var count := Spaces(dateStrings[k]);
      if numberOfSpaces.Some? && count != numberOfSpaces.value {
        return None;
      }
      numberOfSpaces := Some(count);
    }
    if numberOfSpaces.None? {
      return None;
    }
    var spaces := numberOfSpaces.value;
    assert CommonSpaces(dateStrings) == Some(spaces);

    var formatters: seq<DateFormatter>;
    if spaces == 0 {
      formatters := seq(|NoSpaceFormatStrings|, i requires 0 <= i < |NoSpaceFormatStrings| => WithFormat(NoSpaceFormatStrings[i]));
    } else {
      var timeFormatStrings: seq<string>;
      if spaces == 1 {
        timeFormatStrings := OneSpaceFormatStrings;
      } else if spaces == 2 {
        timeFormatStrings := TwoSpaceFormatStrings;
      } else if spaces == 3 {
        timeFormatStrings := ThreeSpaceFormatStrings;
      } else {
        return None;
      }
      assert TimeFormatStrings(spaces) == Some(timeFormatStrings);
      formatters := CombinedFormatters(NoSpaceFormatStrings, timeFormatStrings);
    }
    assert Candidates(spaces) == Some(formatters);
    formatter := FirstParsing(formatters, dateStrings, parses);
  }

  /** The nested loops that append one formatter per date and time format. */
  method CombinedFormatters(dates: seq<string>, times: seq<string>) returns (formatters: seq<DateFormatter>)
    ensures formatters == Combined(dates, times)
  {
    formatters := [];
    for i := 0 to |dates|
      invariant formatters == Combined(dates[..i], times)
    {
      var dateString := dates[i];
      for j := 0 to |times|
        invariant formatters == Combined(dates[..i], times) + Row(dateString, times[..j])
      {
        assert Row(dateString, times[..j + 1])
            == Row(dateString, times[..j]) + [WithFormat(dateString + " " + times[j])];
        formatters := formatters + [WithFormat(dateString + " " + times[j])];
      }
      assert times[..|times|] == times;
      assert dates[..i + 1][..i] == dates[..i];
    }
    assert dates[..|dates|] == dates;
  }

  /** The labelled search: the first formatter under which every input parses. */
  method FirstParsing(formatters: seq<DateFormatter>, dateStrings: seq<string>,
                      parses: (DateFormatter, string) -> bool)
    returns (formatter: Option<DateFormatter>)
    ensures formatter == FirstParsingAll(formatters, dateStrings, parses)
  {
    label formatterLoop:
    for k := 0 to |formatters|
      invariant FirstParsingAll(formatters, dateStrings, parses) == FirstParsingAll(formatters[k..], dateStrings, parses)
    {
      var candidate := formatters[k];
      assert formatters[k..][1..] == formatters[k + 1..];
      for m := 0 to |dateStrings|
        invariant forall i :: 0 <= i < m ==> parses(candidate, dateStrings[i])
      {
        if !parses(candidate, dateStrings[m]) {
          continue formatterLoop;
        }
      }
      return Some(candidate);
    }
    return None;
  }

  /** No inputs: no formatter. */
  lemma NoInputsNoFormatter(parses: (DateFormatter, string) -> bool)
    ensures FormatterFor([], parses) == None
  {
  }

  /** Two inputs with different numbers of spaces: no formatter. */
  lemma InconsistentSpacesNoFormatter(dateStrings: seq<string>, parses: (DateFormatter, string) -> bool, i: nat, j: nat)
    requires i < |dateStrings| && j < |dateStrings| && Spaces(dateStrings[i]) != Spaces(dateStrings[j])
    ensures FormatterFor(dateStrings, parses) == None
  {
  }

  /** Inputs that share more than three spaces: no formatter. */
  lemma TooManySpacesNoFormatter(dateStrings: seq<string>, parses: (DateFormatter, string) -> bool)
    requires dateStrings != [] && forall i :: 0 <= i < |dateStrings| ==> Spaces(dateStrings[i]) > 3
    requires forall i :: 0 <= i < |dateStrings| ==> Spaces(dateStrings[i]) == Spaces(dateStrings[0])
    ensures FormatterFor(dateStrings, parses) == None
  {
  }

  /** 5, 10, 15 and 5 candidates for 0, 1, 2 and 3 spaces, none for more. */
  lemma CandidateCounts(spaces: nat)
    ensures spaces == 0 ==> Candidates(spaces).Some? && |Candidates(spaces).value| == 5
    ensures spaces == 1 ==> Candidates(spaces).Some? && |Candidates(spaces).value| == 10
    ensures spaces == 2 ==> Candidates(spaces).Some? && |Candidates(spaces).value| == 15
    ensures spaces == 3 ==> Candidates(spaces).Some? && |Candidates(spaces).value| == 5
    ensures spaces > 3 ==> Candidates(spaces).None?
  {
  }

  /** Candidate number `i * |times| + j` joins date format `i` and time format `j` with one space. */
  lemma {:induction false} CombinedAt(dates: seq<string>, times: seq<string>, i: nat, j: nat)
    requires i < |dates| && j < |times|
    ensures i * |times| + j < |Combined(dates, times)|
    ensures Combined(dates, times)[i * |times| + j] == WithFormat(dates[i] + " " + times[j])
  {
    var n := |dates| - 1;
    var front := Combined(dates[..n], times);
    assert |front| == n * |times|;
    if i < n {
      CombinedAt(dates[..n], times, i, j);
      assert i * |times| + j < n * |times| by {
        assert i + 1 <= n;
        assert (i + 1) * |times| <= n * |times| by {
          MulMonotone(i + 1, n, |times|);
        }
      }
      assert dates[..n][i] == dates[i];
    } else {
      assert i == n;
    }
  }

  lemma MulMonotone(a: nat, b: nat, c: nat)
    requires a <= b
    ensures a * c <= b * c
  {
  }

  /** The candidates for one to three spaces, in date-major order. */
  lemma CandidateOrder(spaces: nat, i: nat, j: nat)
    requires 1 <= spaces <= 3 && i < |NoSpaceFormatStrings| && j < |TimeFormatStrings(spaces).value|
    ensures var times := TimeFormatStrings(spaces).value;
            i * |times| + j < |Candidates(spaces).value|
            && Candidates(spaces).value[i * |times| + j] == WithFormat(NoSpaceFormatStrings[i] + " " + times[j])
  {
    CombinedAt(NoSpaceFormatStrings, TimeFormatStrings(spaces).value, i, j);
  }

  lemma NoSpacesInDates()
    ensures forall i :: 0 <= i < |NoSpaceFormatStrings| ==> Spaces(NoSpaceFormatStrings[i]) == 0
  {
    forall i | 0 <= i < |NoSpaceFormatStrings|
      ensures Spaces(NoSpaceFormatStrings[i]) == 0
    {
      CountAbsent(NoSpaceFormatStrings[i], ' ');
    }
  }

  lemma TimeSpaces(spaces: nat)
    requires 1 <= spaces <= 3
    ensures forall j :: 0 <= j < |TimeFormatStrings(spaces).value| ==> Spaces(TimeFormatStrings(spaces).value[j]) == spaces - 1
  {
    if spaces == 1 {
      CountAbsent(TimeComponent1, ' ');
      CountAbsent(TimeComponent3, ' ');
    } else if spaces == 2 {
      CountAbsent("hh:mm", ' ');
      CountAbsent("hh:mm:ss", ' ');
      CountAbsent("HH:mm:ss", ' ');
      CountAbsent("a", ' ');
      CountAbsent("Z", ' ');
      SpaceCountOf("hh:mm", "a");
      SpaceCountOf("hh:mm:ss", "a");
      SpaceCountOf("HH:mm:ss", "Z");
      assert "hh:mm" + " " + "a" == TimeComponent2;
      assert "hh:mm:ss" + " " + "a" == TimeComponent4;
      assert "HH:mm:ss" + " " + "Z" == TimeComponent5;
      assert Spaces(TimeComponent2) == 1 && Spaces(TimeComponent4) == 1 && Spaces(TimeComponent5) == 1;
    } else {
      CountAbsent("hh:mm:ss", ' ');
      CountAbsent("a", ' ');
      CountAbsent("Z", ' ');
      SpaceCountOf("hh:mm:ss", "a");
      SpaceCountOf("hh:mm:ss a", "Z");
      assert "hh:mm:ss" + " " + "a" == "hh:mm:ss a";
      assert "hh:mm:ss a" + " " + "Z" == TimeComponent6;
      assert Spaces(TimeComponent6) == 2;
    }
  }

  /** Joining with one space adds one space to those of the parts. */
  lemma SpaceCountOf(a: string, b: string)
    ensures Spaces(a + " " + b) == Spaces(a) + 1 + Spaces(b)
  {
    CountAppend(a + " ", b, ' ');
    CountAppend(a, " ", ' ');
    assert " "[..0] == [];
  }

  /** Every candidate uses the POSIX locale and has as many spaces as the inputs. */
  lemma CandidatesMatchInputs(spaces: nat)
    requires Candidates(spaces).Some?
    ensures forall k :: 0 <= k < |Candidates(spaces).value| ==>
      Candidates(spaces).value[k].locale == PosixLocale && Spaces(Candidates(spaces).value[k].dateFormat) == spaces
  {
    NoSpacesInDates();
    if spaces > 0 {
      var times := TimeFormatStrings(spaces).value;
      TimeSpaces(spaces);
      CombinedShape(NoSpaceFormatStrings, times, spaces);
    }
  }

  /** Every combined formatter has a zero-space date, a space and a time with `spaces - 1` spaces. */
  lemma {:induction false} CombinedShape(dates: seq<string>, times: seq<string>, spaces: nat)
    requires spaces >= 1
    requires forall i :: 0 <= i < |dates| ==> Spaces(dates[i]) == 0
    requires forall j :: 0 <= j < |times| ==> Spaces(times[j]) == spaces - 1
    ensures forall k :: 0 <= k < |Combined(dates, times)| ==>
      Combined(dates, times)[k].locale == PosixLocale && Spaces(Combined(dates, times)[k].dateFormat) == spaces
  {
    if dates != [] {
      var n := |dates| - 1;
      CombinedShape(dates[..n], times, spaces);
      var front := Combined(dates[..n], times);
      var row := Row(dates[n], times);
      forall j | 0 <= j < |times|
        ensures Spaces(row[j].dateFormat) == spaces
      {
        SpaceCountOf(dates[n], times[j]);
      }
      assert Combined(dates, times) == front + row;
    }
  }

  /** The first formatter that parses every input, and no earlier one does. */
  lemma {:induction false} FirstParsingAllIsFirst(formatters: seq<DateFormatter>, dateStrings: seq<string>,
                                                  parses: (DateFormatter, string) -> bool)
    ensures FirstParsingAll(formatters, dateStrings, parses).Some? ==>
      exists k :: 0 <= k < |formatters| && formatters[k] == FirstParsingAll(formatters, dateStrings, parses).value
        && ParsesAll(formatters[k], dateStrings, parses)
        && forall m :: 0 <= m < k ==> !ParsesAll(formatters[m], dateStrings, parses)
    ensures FirstParsingAll(formatters, dateStrings, parses).None? ==>
      forall k :: 0 <= k < |formatters| ==> !ParsesAll(formatters[k], dateStrings, parses)
  {
    if formatters != [] && !ParsesAll(formatters[0], dateStrings, parses) {
      var rest := formatters[1..];
      FirstParsingAllIsFirst(rest, dateStrings, parses);
      if FirstParsingAll(rest, dateStrings, parses).Some? {
        var k :| 0 <= k < |rest| && rest[k] == FirstParsingAll(rest, dateStrings, parses).value
          && ParsesAll(rest[k], dateStrings, parses)
          && forall m :: 0 <= m < k ==> !ParsesAll(rest[m], dateStrings, parses);
        assert formatters[k + 1] == rest[k];
        assert forall m :: 1 <= m < k + 1 ==> formatters[m] == rest[m - 1];
      } else {
        assert forall k :: 1 <= k < |formatters| ==> formatters[k] == rest[k - 1];
      }
    }
  }

  /**
   * The result, when there is one, is a candidate for the inputs' common space
   * count: POSIX locale, that many spaces, parses every input, and the first such.
   */
  lemma FormatterIsFirstCandidate(dateStrings: seq<string>, parses: (DateFormatter, string) -> bool)
    requires FormatterFor(dateStrings, parses).Some?
    ensures CommonSpaces(dateStrings).Some? && Candidates(CommonSpaces(dateStrings).value).Some?
    ensures var f := FormatterFor(dateStrings, parses).value;
            f.locale == PosixLocale && ParsesAll(f, dateStrings, parses)
            && forall i :: 0 <= i < |dateStrings| ==> Spaces(f.dateFormat) == Spaces(dateStrings[i])
    ensures var f, formatters := FormatterFor(dateStrings, parses).value, Candidates(CommonSpaces(dateStrings).value).value;
            exists k :: 0 <= k < |formatters| && formatters[k] == f
              && forall m :: 0 <= m < k ==> !ParsesAll(formatters[m], dateStrings, parses)
  {
    var n := CommonSpaces(dateStrings).value;
    var formatters := Candidates(n).value;
    FirstParsingAllIsFirst(formatters, dateStrings, parses);
    CandidatesMatchInputs(n);
  }

  /** No result although the inputs agree: no candidate parses them all. */
  lemma NoFormatterMeansNoCandidate(dateStrings: seq<string>, parses: (DateFormatter, string) -> bool)
    requires CommonSpaces(dateStrings).Some? && Candidates(CommonSpaces(dateStrings).value).Some?
    requires FormatterFor(dateStrings, parses).None?
    ensures var formatters := Candidates(CommonSpaces(dateStrings).value).value;
            forall k :: 0 <= k < |formatters| ==> !ParsesAll(formatters[k], dateStrings, parses)
  {
    FirstParsingAllIsFirst(Candidates(CommonSpaces(dateStrings).value).value, dateStrings, parses);
  }
}
