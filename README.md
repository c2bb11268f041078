# ConcentricProgressRingView and LionheartExtensions in Dafny

This project models ConcentricProgressRingView, a `UIView` that draws one ring
per bar, from the outside in. Each ring is a full background circle with a
progress arc on top. The arc's `strokeEnd` is the drawn fraction, and setting
a percent animates it. The model also covers the parts of the
LionheartExtensions pod that the view's example project ships with. Most of
these parts exist twice: a current Swift version and an older Swift 2
version, kept side by side in the pod. They are:

- colour literals and colour strings (`ColorRepresentation`), plus the
  `Int.toRGBA` channel split;
- the `String`, `NSString` and `NSAttributedString` helpers: first-letter
  case, trimming, dashes, and naming-format conversion;
- array chunking;
- truthiness and the `all`/`any` helpers;
- date-formatter selection;
- font display names.

Each Swift file has its own Dafny module. The older file's module is prefixed
`Legacy`.

- `ring.dfy` (`ConcentricProgressRing`)
  - `ProgressRingLayer` and `ConcentricProgressRingView` are classes whose
    fields the methods update.
  - The view's constructor runs the same loop as the initialiser. It keeps
    the invariant that ring `i` sits at radius `RingRadius(…, i)`.
- `int_rgba.dfy` / `legacy_int.dfy`
  - `toRGBA` splits a packed colour into channels in [0, 1].
  - The split depends on the value's magnitude: 8, 6 or 3 hex digits.
- `color_patterns.dfy` (`ColorPatterns`)
  - The three regular expressions (hex, `rgb(…)`, `rgba(…)`) are written as
    grammars over ASCII text.
  - Each has a matcher, proved sound and complete with respect to its
    grammar.
  - A second channel grammar states what the channel alternation was meant
    to accept (every value 0–255).
- `color_representation.dfy` / `legacy_color.dfy`
  - The colour enums and their literal initialisers.
  - `init(fromString:)` and `valueFromString` are methods with the source's
    loop over the two regular expressions. Each is proved equal to a
    specification function, `Parse`.
  - The two files run the same loop over the patterns, so both methods call
    one `CaptureChannels`.
- `string_extensions.dfy` / `legacy_strings.dfy`
  - The string helpers.
  - The Pascal-case loop is a method proved against `PascalCase`.
  - The mutating members are methods of a `MutableString` class.
  - The older regular expressions scan only `range()`, the character count
    taken as UTF-16 units. The `AsWritten` members model that scan; the
    rest of the module scans the whole string.
- `chunks.dfy` / `legacy_chunks.dfy`
  - The iterator and generator are classes with a `position` field.
  - Each `Next()` is specified by the chunk list still to come.
- `functional.dfy`
  - Dynamic values are a `Value` datatype.
  - `truthy` is a function.
  - The `all`/`any` loops are early-exit methods proved against recursive
    predicates.
- `date_formatter.dfy`
  - The format constants.
  - `formatter(dateStrings:)`, with its three loops and labelled `continue`,
    proved against `FormatterFor`.
- `font.dfy` / `legacy_font.dfy`
  - The `([a-z])([A-Z])` → `$1 $2` rewrite as a scanning method.
  - The split and join at `-` as functions.
  - The older `displayName()` scans only `range()`, like the older string
    helpers; `DisplayedAsWritten` models that scan.

Some results depend on the platform rather than on the code. These are
parameters of the model:

- Whether ICU's date parser accepts a string is the function `parses` given
  to `DateFormatters.Formatter`.
- A predicate is a Dafny function value. A throwing predicate returns a
  `Result`.

`CGFloat` and `Float` are modelled as exact `real`s, and colours as opaque
identifiers.

## Model

| member | source | states |
|---|---|---|
| ConcentricProgressRing.RingRadius | ConcentricProgressRingView/Classes/ConcentricProgressRing.swift:73 | the outer ring's stroke reaches `maxRadius`, and no ring lies outside it when `margin + arcWidth` is not negative |
| ConcentricProgressRing.RadiiStrictlyDecrease | ConcentricProgressRingView/Classes/ConcentricProgressRing.swift:73 | ring radii fall strictly with the ring index, exactly `margin + arcWidth` per ring |
| ConcentricProgressRing.SampleRadii | ConcentricProgressRingView/Classes/ConcentricProgressRing.swift:73 | width 18, margin 2, maximum radius 80 give radii 71, 51, 31 |
| ConcentricProgressRing.ProgressRingLayer.constructor | ConcentricProgressRingView/Classes/ConcentricProgressRing.swift:21-32 | the layer keeps centre, radius, width and colour; `strokeStart` is 0, `strokeEnd` the given percent, `percent` unset, no animation |
| ConcentricProgressRing.ProgressRingLayer.Circle | ConcentricProgressRingView/Classes/ConcentricProgressRing.swift:54-57 | a circle layer is a full ring: `strokeEnd` is 1 |
| ConcentricProgressRing.ProgressRingLayer.Set | ConcentricProgressRingView/Classes/ConcentricProgressRing.swift:42-51 | `strokeEnd` becomes the new percent; a `strokeEnd` animation from the old value to the new one, with the given duration, replaces any earlier one under that key; nothing else changes |
| ConcentricProgressRing.ProgressRingLayer.SetPercent | ConcentricProgressRingView/Classes/ConcentricProgressRing.swift:11-19 | assigning `nil` only stores it; assigning a value stores it and animates to it with duration 0 |
| ConcentricProgressRing.ConcentricProgressRingView.constructor | ConcentricProgressRingView/Classes/ConcentricProgressRing.swift:68-83 | frame is `2·maxRadius` square; one fresh circle and one fresh arc per bar, all distinct; ring `i` at `RingRadius(i)` with the bar's colours and percent, arc width `arcWidth`, centred on the view, without animations |
| ConcentricProgressRing.ConcentricProgressRingView.AddRing | ConcentricProgressRingView/Classes/ConcentricProgressRing.swift:73-78 | one pass of the loop: a fresh circle and a distinct fresh arc are appended at ring `|arcs|`, with the bar's colours and percent and no animation; the rings before it are unchanged |
| ConcentricProgressRing.ConcentricProgressRingView.Subscript | ConcentricProgressRingView/Classes/ConcentricProgressRing.swift:89-91 | `view[i]` is arc `i`, a progress arc at ring `i`'s radius |
| IntExtensions.Byte | Example/Pods/LionheartExtensions/Pod/Classes/Core/Int+LionheartExtensions.swift:44-51 | `(v >> 8k) & 0xFF` is a byte |
| IntExtensions.Nibble | Example/Pods/LionheartExtensions/Pod/Classes/Core/Int+LionheartExtensions.swift:54-56 | `(v >> 4k) & 0xF` is a nibble |
| IntExtensions.PackedChannels | Example/Pods/LionheartExtensions/Pod/Classes/Core/Int+LionheartExtensions.swift:43-58 | the scale is 255 above 0xFFF and 15 otherwise; every numerator is at most the scale; alpha equals the scale up to 0xFFFFFF |
| IntExtensions.ComponentsInUnitInterval | Example/Pods/LionheartExtensions/Pod/Classes/Core/Int+LionheartExtensions.swift:42-59 | all four components lie in [0, 1] for every `Int`, negatives included |
| IntExtensions.OpaqueBelowEightDigits | Example/Pods/LionheartExtensions/Pod/Classes/Core/Int+LionheartExtensions.swift:48-58 | values up to 0xFFFFFF are opaque |
| IntExtensions.ChannelsRoundTrip | Example/Pods/LionheartExtensions/Pod/Classes/Core/Int+LionheartExtensions.swift:42-59 | for 0 ≤ v < 2³², re-packing the channels at their width gives `v` back |
| IntExtensions.RedLiterals | Example/Pods/LionheartExtensions/Pod/Classes/Core/Int+LionheartExtensions.swift:42-59 | 0xF00, 0xFF0000 and 0xFF0000FF are all opaque red |
| IntExtensions.ShorthandByMagnitude | Example/Pods/LionheartExtensions/Pod/Classes/Core/Int+LionheartExtensions.swift:48-58 | the layout is chosen by magnitude, not by digit count: 0x000FFF is white, 0x001000 is a six-digit colour |
| IntExtensions.ToRGBA | Example/Pods/LionheartExtensions/Pod/Classes/Core/Int+LionheartExtensions.swift:42-59 | the out-parameters are the components, each in [0, 1] |
| LegacyIntExtensions.ToRGBA | Example/Pods/LionheartExtensions/Pod/Classes/Core/Int.swift:33-52 | the older `toRGBA` gives the same components as the newer one |
| ColorPatterns.AlphaFraction | Example/Pods/LionheartExtensions/Pod/Classes/ColorRepresentation.swift:47 | the alpha group `0?\.\d+` has a non-empty digit fraction |
| ColorPatterns.AlphaValue | Example/Pods/LionheartExtensions/Pod/Classes/ColorRepresentation.swift:85-86 | every alpha the pattern accepts is in [0, 1) |
| ColorPatterns.MatchHex | Example/Pods/LionheartExtensions/Pod/Classes/ColorRepresentation.swift:45 | a match is an optional `#` and 3 or 6 hex digits, and is the whole string |
| ColorPatterns.MatchHexComplete | Example/Pods/LionheartExtensions/Pod/Classes/ColorRepresentation.swift:45 | every string of that shape matches, with its digits as group 1 |
| ColorPatterns.MatchRgb | Example/Pods/LionheartExtensions/Pod/Classes/ColorRepresentation.swift:46 | a match is `rgb(` three channel tokens separated by a comma and any spaces `)`, the whole string |
| ColorPatterns.MatchRgbComplete | Example/Pods/LionheartExtensions/Pod/Classes/ColorRepresentation.swift:46 | every string of that shape matches, with its tokens as groups |
| ColorPatterns.MatchRgba | Example/Pods/LionheartExtensions/Pod/Classes/ColorRepresentation.swift:47 | a match is `rgba(` three channels and an alpha token `)`, the whole string |
| ColorPatterns.MatchRgbaComplete | Example/Pods/LionheartExtensions/Pod/Classes/ColorRepresentation.swift:47 | every string of that shape matches, with its tokens as groups |
| ColorPatterns.ChannelTokenBounded | Example/Pods/LionheartExtensions/Pod/Classes/ColorRepresentation.swift:46-47 | every channel token either grammar accepts is at most 255 |
| ColorPatterns.AsWrittenChannelAcceptsByte | Example/Pods/LionheartExtensions/Pod/Classes/ColorRepresentation.swift:46-47 | `1?[0-9]{1,2}\|2[0-5][0-5]` accepts n ≤ 255 exactly when n < 200 or both its last digits are at most 5 |
| ColorPatterns.IntendedChannelAcceptsEveryByte | Example/Pods/LionheartExtensions/Pod/Classes/ColorRepresentation.swift:46-47 | the corrected channel grammar accepts the decimal text of every value 0–255 |
| ColorPatterns.PatternsDisjoint | Example/Pods/LionheartExtensions/Pod/Classes/ColorRepresentation.swift:45-47 | no string matches two of the patterns |
| ColorPatterns.Groups | Example/Pods/LionheartExtensions/Pod/Classes/ColorRepresentation.swift:64-71 | a match yields 3 groups for `rgb`, 4 for `rgba`, each a token of its grammar |
| ColorPatterns.CapturesAfterBoth | Example/Pods/LionheartExtensions/Pod/Classes/ColorRepresentation.swift:58-73 | after the loop the captures are those of whichever pattern matched, alpha only from `rgba`, all `nil` if neither did |
| ColorPatterns.DecimalText | Example/Pods/LionheartExtensions/Pod/Classes/ColorRepresentation.swift:78-80 | every natural number has a decimal text that `Int(_:)` reads back as it |
| ColorRepresentation.IntegerLiteral | Example/Pods/LionheartExtensions/Pod/Classes/ColorRepresentation.swift:31-33 | an integer literal is `.HEX` of itself |
| ColorRepresentation.Truncate | Example/Pods/LionheartExtensions/Pod/Classes/ColorRepresentation.swift:36 | `Int(Float)` truncates toward zero on both signs |
| ColorRepresentation.ArrayLiteral | Example/Pods/LionheartExtensions/Pod/Classes/ColorRepresentation.swift:35-42 | three elements give `.RGB` of their truncations, four give `.RGBA` with the fourth kept, any other count gives `.HEX(0)` |
| ColorRepresentation.ArrayLiteralOfWholeNumbers | Example/Pods/LionheartExtensions/Pod/Classes/ColorRepresentation.swift:35-42 | whole-number literals keep their values |
| ColorRepresentation.Parse | Example/Pods/LionheartExtensions/Pod/Classes/ColorRepresentation.swift:44-91 | never `.HEX`; `.RGB` exactly when the rgb pattern matches, `.RGBA` exactly when the rgba one does, `.invalid` otherwise; channels 0–255 and alpha in [0, 1) |
| ColorRepresentation.ParseRgb | Example/Pods/LionheartExtensions/Pod/Classes/ColorRepresentation.swift:63-90 | any `rgb(…)` text of valid tokens parses to the tokens' values |
| ColorRepresentation.ParseRgba | Example/Pods/LionheartExtensions/Pod/Classes/ColorRepresentation.swift:63-87 | any `rgba(…)` text of valid tokens parses to the tokens' values and alpha |
| ColorRepresentation.HexStringsBecomeInvalid | Example/Pods/LionheartExtensions/Pod/Classes/ColorRepresentation.swift:50-83 | every string the hex pattern matches comes out `.invalid` |
| ColorRepresentation.RgbaSample | Example/Pods/LionheartExtensions/Pod/Classes/ColorRepresentation.swift:44-91 | `"rgba(255, 0, 0, 0.5)"` is `.RGBA(255, 0, 0, 0.5)` |
| ColorRepresentation.HexSample | Example/Pods/LionheartExtensions/Pod/Classes/ColorRepresentation.swift:50-83 | `"f00"` is `.invalid` |
| ColorRepresentation.NonColorSample | Example/Pods/LionheartExtensions/Pod/Classes/ColorRepresentation.swift:75-83 | `"not-a-color"` is `.invalid` |
| ColorRepresentation.FromString | Example/Pods/LionheartExtensions/Pod/Classes/ColorRepresentation.swift:44-91 | the loop over the two patterns, with its captures and the `guard`, computes `Parse` |
| ColorRepresentation.CaptureChannels | Example/Pods/LionheartExtensions/Pod/Classes/ColorRepresentation.swift:58-73 | after the rgb and then the rgba pattern, `_r`, `_g`, `_b`, `_a` hold the captures of the last pattern that matched (`CapturesAfter`) |
| ColorRepresentation.StringLiteral | Example/Pods/LionheartExtensions/Pod/Classes/ColorRepresentation.swift:93-95 | a string literal is parsed by `init(fromString:)` |
| ColorRepresentation.ExtendedGraphemeClusterLiteral | Example/Pods/LionheartExtensions/Pod/Classes/ColorRepresentation.swift:97-99 | likewise |
| ColorRepresentation.UnicodeScalarLiteral | Example/Pods/LionheartExtensions/Pod/Classes/ColorRepresentation.swift:101-103 | likewise |
| ColorRepresentation.ParseIntended | Example/Pods/LionheartExtensions/Pod/Classes/ColorRepresentation.swift:44-91 | corrected parse: hex strings give `.HEX` of their digits, channels use the corrected grammar; `.invalid` exactly when no pattern matches |
| ColorRepresentation.IntendedHexStrings | Example/Pods/LionheartExtensions/Pod/Classes/ColorRepresentation.swift:50-56 | under the corrected parse `"f00"` is `.HEX(0xF00)` and `"#FF0000"` is `.HEX(0xFF0000)` |
| ColorRepresentation.HexSamples | Example/Pods/LionheartExtensions/Pod/Classes/ColorRepresentation.swift:53 | `Int("f00", radix: 16)` is 0xF00 and `Int("FF0000", radix: 16)` is 0xFF0000 |
| ColorRepresentation.IntendedRgbRoundTrip | Example/Pods/LionheartExtensions/Pod/Classes/ColorRepresentation.swift:46 | under the corrected grammar, printing any three bytes as `rgb(r, g, b)` parses back to them |
| ColorRepresentation.ChannelGapRejected | Example/Pods/LionheartExtensions/Pod/Classes/ColorRepresentation.swift:46 | `249` is not a channel token, so `"rgb(249, 0, 0)"` is `.invalid`; the corrected parse gives `.RGB(249, 0, 0)` |
| LegacyColorRepresentation.IntegerLiteral | Example/Pods/LionheartExtensions/Pod/Classes/Core/UIColor.swift:23-25 | an integer literal is `.Hex` of itself |
| LegacyColorRepresentation.ArrayLiteral | Example/Pods/LionheartExtensions/Pod/Classes/Core/UIColor.swift:27-38 | same cases as the newer array literal |
| LegacyColorRepresentation.LiteralsAgree | Example/Pods/LionheartExtensions/Pod/Classes/Core/UIColor.swift:23-38 | both literal initialisers agree with the newer enum |
| LegacyColorRepresentation.Parse | Example/Pods/LionheartExtensions/Pod/Classes/Core/UIColor.swift:52-100 | `.Hex` of the digits exactly when the hex pattern matches, and then below 2²⁴; otherwise `.RGB`/`.RGBA`/`.Invalid` by the other patterns; channels 0–255, alpha in [0, 1) |
| LegacyColorRepresentation.HexBelow | Example/Pods/LionheartExtensions/Pod/Classes/Core/UIColor.swift:61 | 3 or 6 hex digits are below 2²⁴ |
| LegacyColorRepresentation.AgreesWithNewerVersion | Example/Pods/LionheartExtensions/Pod/Classes/Core/UIColor.swift:52-100 | off the hex pattern both versions agree; on it the older gives `.Hex` where the newer gives `.invalid` |
| LegacyColorRepresentation.HexAgreesWithIntended | Example/Pods/LionheartExtensions/Pod/Classes/Core/UIColor.swift:58-64 | on hex strings the older version is the corrected newer one |
| LegacyColorRepresentation.ValueFromString | Example/Pods/LionheartExtensions/Pod/Classes/Core/UIColor.swift:52-100 | the early hex return, the loop and the `if let` computes `Parse` |
| LegacyColorRepresentation.StringLiteral | Example/Pods/LionheartExtensions/Pod/Classes/Core/UIColor.swift:40-42 | a string literal is `valueFromString` of it |
| LegacyColorRepresentation.ExtendedGraphemeClusterLiteral | Example/Pods/LionheartExtensions/Pod/Classes/Core/UIColor.swift:44-46 | likewise |
| LegacyColorRepresentation.UnicodeScalarLiteral | Example/Pods/LionheartExtensions/Pod/Classes/Core/UIColor.swift:48-50 | likewise |
| LegacyColorRepresentation.HexSamples | Example/Pods/LionheartExtensions/Pod/Classes/Core/UIColor.swift:58-63 | `"f00"` is `.Hex(0xF00)`, `"#FF0000"` is `.Hex(0xFF0000)` |
| LegacyColorRepresentation.EightDigitsInvalid | Example/Pods/LionheartExtensions/Pod/Classes/Core/UIColor.swift:53 | `"FF0000FF"` is `.Invalid` although the literal 0xFF0000FF is `.Hex` |
| LegacyColorRepresentation.ParseRgb | Example/Pods/LionheartExtensions/Pod/Classes/Core/UIColor.swift:71-96 | any `rgb(…)` text of valid tokens parses to their values |
| LegacyColorRepresentation.ParseRgba | Example/Pods/LionheartExtensions/Pod/Classes/Core/UIColor.swift:71-93 | any `rgba(…)` text of valid tokens parses to their values and alpha |
| LegacyColorRepresentation.RgbSample | Example/Pods/LionheartExtensions/Pod/Classes/Core/UIColor.swift:52-100 | `"rgb(255, 0, 0)"` is `.RGB(255, 0, 0)` |
| LegacyColorRepresentation.RgbaSample | Example/Pods/LionheartExtensions/Pod/Classes/Core/UIColor.swift:52-100 | `"rgba(255, 0, 0, 0.15)"` is `.RGBA(255, 0, 0, 0.15)` |
| StringExtensions.NilIfEmpty | Example/Pods/LionheartExtensions/Pod/Classes/Core/String+LionheartExtensions.swift:82-88 | `nil` exactly for the empty string, otherwise the string itself |
| StringExtensions.Length | Example/Pods/LionheartExtensions/Pod/Classes/Core/String+LionheartExtensions.swift:91-93 | the UTF-16 length is between the character count and twice it |
| StringExtensions.LengthOfBmp | Example/Pods/LionheartExtensions/Pod/Classes/Core/String+LionheartExtensions.swift:91-93 | the length equals the character count exactly when every character is in the Basic Multilingual Plane |
| StringExtensions.Range | Example/Pods/LionheartExtensions/Pod/Classes/Core/String+LionheartExtensions.swift:96-98 | the range starts at 0; its length is between the character count and twice it |
| StringExtensions.LowercasingFirstLetter | Example/Pods/LionheartExtensions/Pod/Classes/Core/String+LionheartExtensions.swift:129-132 | only the first letter changes, to lower case; empty strings trap |
| StringExtensions.UppercasingFirstLetter | Example/Pods/LionheartExtensions/Pod/Classes/Core/String+LionheartExtensions.swift:135-138 | only the first letter changes, to upper case |
| StringExtensions.FirstLetterRoundTrip | Example/Pods/LionheartExtensions/Pod/Classes/Core/String+LionheartExtensions.swift:129-138 | lowercasing undoes uppercasing on a string that starts lower-case |
| StringExtensions.LeadingCount | Example/Pods/LionheartExtensions/Pod/Classes/Core/String+LionheartExtensions.swift:108 | the longest prefix drawn from the set |
| StringExtensions.TrailingCount | Example/Pods/LionheartExtensions/Pod/Classes/Core/String+LionheartExtensions.swift:108 | the longest suffix drawn from the set |
| StringExtensions.TrimmingCharacters | Example/Pods/LionheartExtensions/Pod/Classes/Core/String+LionheartExtensions.swift:108 | the result is the infix after the leading run, everything after it is in the set, and neither of its ends is |
| StringExtensions.TrimIdempotent | Example/Pods/LionheartExtensions/Pod/Classes/Core/String+LionheartExtensions.swift:107-109 | trimming twice is trimming once |
| StringExtensions.TrimWithoutMembers | Example/Pods/LionheartExtensions/Pod/Classes/Core/String+LionheartExtensions.swift:107-109 | a string with no member of the set is unchanged |
| StringExtensions.ReplacingSpacesWithDashes | Example/Pods/LionheartExtensions/Pod/Classes/Core/String+LionheartExtensions.swift:154-158 | same length, each space a dash, everything else lower-cased; no space or capital remains |
| StringExtensions.ReplacingSpacesWithDashesIdempotent | Example/Pods/LionheartExtensions/Pod/Classes/Core/String+LionheartExtensions.swift:154-158 | a second application changes nothing |
| StringExtensions.MarkCapitalRuns | Example/Pods/LionheartExtensions/Pod/Classes/Core/String+LionheartExtensions.swift:163-165 | `([A-Z]+)` → `_$0` only inserts: the rewritten text is never shorter than the input (the exact growth is MarkCapitalRunsOnePerRun) |
| StringExtensions.MarkCapitalRunsMarksEveryRun | Example/Pods/LionheartExtensions/Pod/Classes/Core/String+LionheartExtensions.swift:163-165 | `([A-Z]+)` → `_$0` leaves every capital after a capital or an `_`, so each maximal run of capitals is preceded by an underscore |
| StringExtensions.MarkCapitalRunsOnePerRun | Example/Pods/LionheartExtensions/Pod/Classes/Core/String+LionheartExtensions.swift:163-165 | exactly one `_` per run: the result is longer than the input by the number of runs of capitals (`RunStarts`), and holds that many more underscores |
| StringExtensions.MarkCapitalRunsInsertsOnlyUnderscores | Example/Pods/LionheartExtensions/Pod/Classes/Core/String+LionheartExtensions.swift:163-165 | without underscores, the rewritten text is the input's |
| StringExtensions.MarkCapitalRunsWithoutCapitals | Example/Pods/LionheartExtensions/Pod/Classes/Core/String+LionheartExtensions.swift:163-165 | text without capitals is not rewritten |
| StringExtensions.Underscores | Example/Pods/LionheartExtensions/Pod/Classes/Core/String+LionheartExtensions.swift:162-171 | no capital is left, and the result starts with `_` exactly when the input did |
| StringExtensions.UnderscoresOnePerRun | Example/Pods/LionheartExtensions/Pod/Classes/Core/String+LionheartExtensions.swift:162-171 | for input that neither begins nor ends with `_`, the result holds the input's underscores plus one per run of capitals, less the one trimmed before a leading capital; its length grows by the same amount |
| StringExtensions.UnderscoresIdempotent | Example/Pods/LionheartExtensions/Pod/Classes/Core/String+LionheartExtensions.swift:162-171 | converting to underscores twice is converting once |
| StringExtensions.UnderscoresSample | Example/Pods/LionheartExtensions/Pod/Classes/Core/String+LionheartExtensions.swift:162-171 | `"fooBar"` becomes `"foo_bar"` |
| StringExtensions.UnderscoresLeadingCapitalSample | Example/Pods/LionheartExtensions/Pod/Classes/Core/String+LionheartExtensions.swift:162-171 | `"FooBar"` becomes `"foo_bar"`: the leading underscore is trimmed |
| StringExtensions.UnderscoresRunSample | Example/Pods/LionheartExtensions/Pod/Classes/Core/String+LionheartExtensions.swift:162-171 | `"_idURL"` becomes `"_id_url"`: a run of capitals gets one underscore and the leading `_` is put back |
| StringExtensions.UnderscoresKeepsLeadingUnderscore | Example/Pods/LionheartExtensions/Pod/Classes/Core/String+LionheartExtensions.swift:162-171 | a leading `_` is kept and the rest of the string converts on its own |
| StringExtensions.PascalFromShape | Example/Pods/LionheartExtensions/Pod/Classes/Core/String+LionheartExtensions.swift:177-192 | the Pascal-case scan leaves no underscore, and its output is shorter than the input by exactly their number |
| StringExtensions.PascalFromAt | Example/Pods/LionheartExtensions/Pod/Classes/Core/String+LionheartExtensions.swift:177-192 | every character other than `_` at position `i` comes out at position `i` minus the underscores before it, uppercased exactly when `uppercaseNextCharacter` is set for it: right after an `_`, or at the start when the flag comes in set |
| StringExtensions.PascalCase | Example/Pods/LionheartExtensions/Pod/Classes/Core/String+LionheartExtensions.swift:177-192 | `.pascalCase` leaves no underscore and is shorter than the input by exactly their number |
| StringExtensions.PascalCaseAt | Example/Pods/LionheartExtensions/Pod/Classes/Core/String+LionheartExtensions.swift:177-192 | for every input, each character other than `_` is kept in order, moved left by the underscores before it; it is uppercased exactly when an `_` comes right before it, and copied otherwise |
| StringExtensions.PascalCaseWithoutUnderscores | Example/Pods/LionheartExtensions/Pod/Classes/Core/String+LionheartExtensions.swift:177-192 | text without underscores is unchanged |
| StringExtensions.PascalCaseSample | Example/Pods/LionheartExtensions/Pod/Classes/Core/String+LionheartExtensions.swift:177-192 | `"foo_bar"` becomes `"fooBar"`: the first letter is not capitalised |
| StringExtensions.PascalCaseUndoesUnderscores | Example/Pods/LionheartExtensions/Pod/Classes/Core/String+LionheartExtensions.swift:160-192 | on a camel-case identifier, the Pascal-case scan inverts the underscore conversion |
| StringExtensions.Converted | Example/Pods/LionheartExtensions/Pod/Classes/Core/String+LionheartExtensions.swift:160-194 | the `.underscores` result holds no capital; the `.pascalCase` result holds no underscore; `.camelCase` is excluded, since it traps |
| StringExtensions.StringByConverting | Example/Pods/LionheartExtensions/Pod/Classes/Core/String+LionheartExtensions.swift:160-194 | the switch and the Pascal-case loop compute `Converted`; `.camelCase` traps |
| StringExtensions.PascalCaseLoop | Example/Pods/LionheartExtensions/Pod/Classes/Core/String+LionheartExtensions.swift:177-191 | the `uppercaseNextCharacter` loop builds exactly `PascalCase(s)` |
| StringExtensions.IsComposedOf | Example/Pods/LionheartExtensions/Pod/Classes/Core/String+LionheartExtensions.swift:200-206 | true exactly when every character is in the set |
| StringExtensions.MutableString.constructor | Example/Pods/LionheartExtensions/Pod/Classes/Core/String+LionheartExtensions.swift:76 | a mutable string holds its value |
| StringExtensions.MutableString.Trim | Example/Pods/LionheartExtensions/Pod/Classes/Core/String+LionheartExtensions.swift:107-109 | the value becomes its trimmed copy |
| StringExtensions.MutableString.ReplaceSpacesWithDashes | Example/Pods/LionheartExtensions/Pod/Classes/Core/String+LionheartExtensions.swift:120-122 | the value becomes its dashed copy |
| StringExtensions.MutableString.ReplaceCapitalsWithUnderscores | Example/Pods/LionheartExtensions/Pod/Classes/Core/String+LionheartExtensions.swift:124-126 | the value becomes its underscore conversion |
| StringExtensions.MutableString.Convert | Example/Pods/LionheartExtensions/Pod/Classes/Core/String+LionheartExtensions.swift:196-198 | the value becomes its conversion |
| StringExtensions.NSStringUppercasingFirstLetterCorrected | Example/Pods/LionheartExtensions/Pod/Classes/Core/String+LionheartExtensions.swift:223-225 | corrected forward: only the first letter changes, and it is not lower-case |
| StringExtensions.NSStringUppercasingFirstLetter | Example/Pods/LionheartExtensions/Pod/Classes/Core/String+LionheartExtensions.swift:223-225 | as written, for every non-empty string: the first character is lower-cased, never upper-cased, and the rest is kept |
| StringExtensions.NSAttributedStringUppercasingFirstLetter | Example/Pods/LionheartExtensions/Pod/Classes/Core/String+LionheartExtensions.swift:253-255 | as written, for every non-empty string: the first character is lower-cased, never upper-cased, and the rest is kept |
| StringExtensions.UppercasingForwardingLowercases | Example/Pods/LionheartExtensions/Pod/Classes/Core/String+LionheartExtensions.swift:223-225 | `NSString` and `NSAttributedString` "uppercasing" turns `"Abc"` into `"abc"`; the corrected forward turns `"abc"` into `"Abc"` |
| StringExtensions.NSAttributedStringConverting | Example/Pods/LionheartExtensions/Pod/Classes/Core/String+LionheartExtensions.swift:261-263 | the result is the underscore conversion whatever format is asked for |
| StringExtensions.NSAttributedStringConvertingCorrected | Example/Pods/LionheartExtensions/Pod/Classes/Core/String+LionheartExtensions.swift:261-263 | corrected forward: the requested conversion |
| StringExtensions.AttributedConvertingIgnoresNaming | Example/Pods/LionheartExtensions/Pod/Classes/Core/String+LionheartExtensions.swift:261-263 | asked for Pascal case, `"foo_bar"` stays `"foo_bar"` where the `String` conversion gives `"fooBar"` |
| StringExtensions.NSStringConverting | Example/Pods/LionheartExtensions/Pod/Classes/Core/String+LionheartExtensions.swift:231-233 | `NSString` conversion is the `String` conversion |
| StringExtensions.NSStringRange | Example/Pods/LionheartExtensions/Pod/Classes/Core/String+LionheartExtensions.swift:215-217 | `NSString.range` starts at 0 and spans the whole UTF-16 length |
| StringExtensions.NSStringLowercasingFirstLetter | Example/Pods/LionheartExtensions/Pod/Classes/Core/String+LionheartExtensions.swift:219-221 | only the first character changes, to its lower case |
| StringExtensions.NSStringReplacingSpacesWithDashes | Example/Pods/LionheartExtensions/Pod/Classes/Core/String+LionheartExtensions.swift:227-229 | same length; each space a dash, everything else lower-cased |
| StringExtensions.NSAttributedStringRange | Example/Pods/LionheartExtensions/Pod/Classes/Core/String+LionheartExtensions.swift:245-247 | `NSAttributedString.range` starts at 0 and spans the whole UTF-16 length |
| StringExtensions.NSAttributedStringLowercasingFirstLetter | Example/Pods/LionheartExtensions/Pod/Classes/Core/String+LionheartExtensions.swift:249-251 | only the first character changes, to its lower case |
| StringExtensions.NSAttributedStringReplacingSpacesWithDashes | Example/Pods/LionheartExtensions/Pod/Classes/Core/String+LionheartExtensions.swift:257-259 | same length; each space a dash, everything else lower-cased |
| LegacyStringExtensions.Range | Example/Pods/LionheartExtensions/Pod/Classes/Core/String.swift:62-64 | `range()` starts at 0 and spans the character count, which never exceeds the UTF-16 length |
| LegacyStringExtensions.RangeAgreesOnBmp | Example/Pods/LionheartExtensions/Pod/Classes/Core/String.swift:62-64 | the older range counts characters, and equals the newer UTF-16 range exactly on Basic Multilingual Plane text |
| LegacyStringExtensions.StringByLowercasingFirstLetter | Example/Pods/LionheartExtensions/Pod/Classes/Core/String.swift:95-98 | only the first character changes, to its lower case |
| LegacyStringExtensions.StringByUppercasingFirstLetter | Example/Pods/LionheartExtensions/Pod/Classes/Core/String.swift:100-103 | only the first character changes, to its upper case |
| LegacyStringExtensions.FirstLetterAgrees | Example/Pods/LionheartExtensions/Pod/Classes/Core/String.swift:95-103 | both first-letter functions agree with the newer ones |
| LegacyStringExtensions.CharacterSet | Example/Pods/LionheartExtensions/Pod/Classes/Core/String.swift:106 | `NSCharacterSet(charactersInString:)` holds exactly the string's characters |
| LegacyStringExtensions.StringByTrimmingString | Example/Pods/LionheartExtensions/Pod/Classes/Core/String.swift:105-107 | the result is the infix of `s` left between a prefix and a suffix made of the characters; neither of its ends is one of them, and a string without them is unchanged |
| LegacyStringExtensions.TrimmingStringTrims | Example/Pods/LionheartExtensions/Pod/Classes/Core/String.swift:105-107 | neither end of the result is in the string's characters, and trimming is idempotent |
| LegacyStringExtensions.StringByReplacingSpacesWithDashes | Example/Pods/LionheartExtensions/Pod/Classes/Core/String.swift:118-122 | with the whole string scanned: same length, each space a dash, everything else lower-cased |
| LegacyStringExtensions.ReplacingSpacesWithDashesAgrees | Example/Pods/LionheartExtensions/Pod/Classes/Core/String.swift:118-122 | the older dashing, with the whole string scanned, is the newer one, with no space left |
| LegacyStringExtensions.ReplacingSpacesWithDashesAsWritten | Example/Pods/LionheartExtensions/Pod/Classes/Core/String.swift:118-122 | as written: only spaces among the scalars inside `range()` become dashes; the whole string is lower-cased |
| LegacyStringExtensions.UnderscoresAsWritten | Example/Pods/LionheartExtensions/Pod/Classes/Core/String.swift:127-137 | as written: capital runs are marked only inside `range()`; no capital is left and a leading `_` is kept |
| LegacyStringExtensions.ScanAgreesOnBmp | Example/Pods/LionheartExtensions/Pod/Classes/Core/String.swift:118-137 | on Basic Multilingual Plane text the scans as written equal the whole-string ones |
| LegacyStringExtensions.ScanStopsEarly | Example/Pods/LionheartExtensions/Pod/Classes/Core/String.swift:118-137 | `"😀A"` converts to `"😀a"`, not `"😀_a"`, and `"😀 "` keeps its space where the whole-string scan gives `"😀-"` |
| LegacyStringExtensions.ScansWhole | Example/Pods/LionheartExtensions/Pod/Classes/Core/String.swift:62-64 | a range covering the whole UTF-16 length covers every scalar |
| LegacyStringExtensions.StringByConvertingToNamingFormat | Example/Pods/LionheartExtensions/Pod/Classes/Core/String.swift:125-161 | with the whole string scanned, the older switch and loop compute the newer `Converted` |
| LegacyStringExtensions.IsComposedOfCharactersInSet | Example/Pods/LionheartExtensions/Pod/Classes/Core/String.swift:167-175 | true exactly when every character is in the set |
| LegacyStringExtensions.MutableString.constructor | Example/Pods/LionheartExtensions/Pod/Classes/Core/String.swift:53 | a mutable string holds its value |
| LegacyStringExtensions.MutableString.Trim | Example/Pods/LionheartExtensions/Pod/Classes/Core/String.swift:77-79 | the value becomes its trimmed copy |
| LegacyStringExtensions.MutableString.ReplaceSpacesWithDashes | Example/Pods/LionheartExtensions/Pod/Classes/Core/String.swift:87-89 | the value becomes its dashed copy |
| LegacyStringExtensions.MutableString.ReplaceCapitalsWithUnderscores | Example/Pods/LionheartExtensions/Pod/Classes/Core/String.swift:91-93 | the value becomes its underscore conversion |
| LegacyStringExtensions.MutableString.ConvertToNamingFormat | Example/Pods/LionheartExtensions/Pod/Classes/Core/String.swift:163-165 | the value becomes its conversion |
| LegacyStringExtensions.NSStringUppercasingFirstLetterCorrected | Example/Pods/LionheartExtensions/Pod/Classes/Core/String.swift:199-201 | corrected forward: only the first letter changes, and it is not lower-case |
| LegacyStringExtensions.NSStringUppercasingFirstLetter | Example/Pods/LionheartExtensions/Pod/Classes/Core/String.swift:199-201 | as written, for every non-empty string: the first character is lower-cased, never upper-cased, and the rest is kept |
| LegacyStringExtensions.NSAttributedStringUppercasingFirstLetter | Example/Pods/LionheartExtensions/Pod/Classes/Core/String.swift:233-235 | as written, for every non-empty string: the first character is lower-cased, never upper-cased, and the rest is kept |
| LegacyStringExtensions.UppercasingForwardingLowercases | Example/Pods/LionheartExtensions/Pod/Classes/Core/String.swift:199-201 | `"Abc"` "uppercased" through `NSString` or `NSAttributedString` is `"abc"`; the corrected forward gives `"Abc"` from `"abc"` |
| LegacyStringExtensions.NSAttributedStringConverting | Example/Pods/LionheartExtensions/Pod/Classes/Core/String.swift:241-243 | the result is the underscore conversion whatever format is asked for |
| LegacyStringExtensions.NSAttributedStringConvertingCorrected | Example/Pods/LionheartExtensions/Pod/Classes/Core/String.swift:241-243 | corrected forward: the requested conversion |
| LegacyStringExtensions.NSStringConverting | Example/Pods/LionheartExtensions/Pod/Classes/Core/String.swift:207-209 | `NSString` conversion is the `String` conversion |
| LegacyStringExtensions.AttributedConvertingIgnoresNaming | Example/Pods/LionheartExtensions/Pod/Classes/Core/String.swift:241-243 | asked for Pascal case, `"foo_bar"` stays `"foo_bar"` where the `String` conversion gives `"fooBar"` |
| LegacyStringExtensions.NSStringRange | Example/Pods/LionheartExtensions/Pod/Classes/Core/String.swift:187-189 | starts at 0 and spans the character count, within the UTF-16 length |
| LegacyStringExtensions.NSStringLowercasingFirstLetter | Example/Pods/LionheartExtensions/Pod/Classes/Core/String.swift:195-197 | only the first character changes, to its lower case |
| LegacyStringExtensions.NSStringReplacingSpacesWithDashes | Example/Pods/LionheartExtensions/Pod/Classes/Core/String.swift:203-205 | same length; each space a dash, everything else lower-cased |
| LegacyStringExtensions.NSStringTrimmingString | Example/Pods/LionheartExtensions/Pod/Classes/Core/String.swift:211-213 | neither end of the result is one of the characters; a string without them is unchanged |
| LegacyStringExtensions.NSAttributedStringRange | Example/Pods/LionheartExtensions/Pod/Classes/Core/String.swift:225-227 | starts at 0 and spans the character count, within the UTF-16 length |
| LegacyStringExtensions.NSAttributedStringLowercasingFirstLetter | Example/Pods/LionheartExtensions/Pod/Classes/Core/String.swift:229-231 | only the first character changes, to its lower case |
| LegacyStringExtensions.NSAttributedStringReplacingSpacesWithDashes | Example/Pods/LionheartExtensions/Pod/Classes/Core/String.swift:237-239 | same length; each space a dash, everything else lower-cased |
| LegacyStringExtensions.NSAttributedStringTrimmingString | Example/Pods/LionheartExtensions/Pod/Classes/Core/String.swift:245-247 | neither end of the result is one of the characters; a string without them is unchanged |
| ArrayChunks.Chunks | Example/Pods/LionheartExtensions/Pod/Classes/Core/Array+LionheartExtensions.swift:21-43 | nothing for size 0 or below or for an empty array; otherwise the chunks, concatenated in order, are the array |
| ArrayChunks.ChunkCount | Example/Pods/LionheartExtensions/Pod/Classes/Core/Array+LionheartExtensions.swift:28-34 | there are ⌈n / size⌉ chunks |
| ArrayChunks.ChunkAtIndex | Example/Pods/LionheartExtensions/Pod/Classes/Core/Array+LionheartExtensions.swift:28-41 | chunk `k` is the slice from `k·size` of `size` elements, cut at the end |
| ArrayChunks.ChunkLengths | Example/Pods/LionheartExtensions/Pod/Classes/Core/Array+LionheartExtensions.swift:36-41 | every chunk is non-empty and at most `size` long, all but the last exactly `size` |
| ArrayChunks.ChunksSample | Example/Pods/LionheartExtensions/Pod/Classes/Core/Array+LionheartExtensions.swift:21-43 | `[1,2,3,4,5]` in twos is `[[1,2],[3,4],[5]]`; size 0 or negative yields nothing |
| ArrayChunks.ChunkAt | Example/Pods/LionheartExtensions/Pod/Classes/Core/Array+LionheartExtensions.swift:36-41 | stepping `j` back from `i + size` until it is in bounds yields the slice to `min(i + size, count)` |
| ArrayChunks.ChunkIterator.constructor | Example/Pods/LionheartExtensions/Pod/Classes/Core/Array+LionheartExtensions.swift:21-29 | the chunks to come are all chunks of the array; none for size 0 |
| ArrayChunks.ChunkIterator.Next | Example/Pods/LionheartExtensions/Pod/Classes/Core/Array+LionheartExtensions.swift:31-42 | `next()` returns the first chunk to come and drops it, or `nil`, forever, once none is left |
| LegacyArrayChunks.ChunkGenerator.constructor | Example/Pods/LionheartExtensions/Pod/Classes/Core/Array.swift:12-14 | for every non-zero size, the chunks to come are the newer `chunks(_:)` output |
| LegacyArrayChunks.ChunkGenerator.Next | Example/Pods/LionheartExtensions/Pod/Classes/Core/Array.swift:16-23 | `next()` returns the first chunk to come and drops it, or `nil` once none is left |
| LegacyArrayChunks.AdvancedBy | Example/Pods/LionheartExtensions/Pod/Classes/Core/Array.swift:18 | `advancedBy(size, limit: endIndex)` moves `size` ahead but stops at the limit |
| Functional.Truthy | Example/Pods/LionheartExtensions/Pod/Classes/Functional.swift:20-45 | `nil`, numbers that are not `Int` and unknown types are false, an `Int` is true when positive, a `String` when non-empty, a `Bool` is itself, a `Date` is true |
| Functional.AllHoldIff | Example/Pods/LionheartExtensions/Pod/Classes/Functional.swift:47-54 | `all` holds exactly when every element passes, so it holds on `[]` |
| Functional.AnyHoldsIff | Example/Pods/LionheartExtensions/Pod/Classes/Functional.swift:56-64 | `any` holds exactly when some element passes, so not on `[]` |
| Functional.AnyIsNotAllNot | Example/Pods/LionheartExtensions/Pod/Classes/Functional.swift:47-64 | `any(xs, p) == !all(xs, !p)` |
| Functional.All | Example/Pods/LionheartExtensions/Pod/Classes/Functional.swift:47-54 | the loop returns whether all pass; when false it stopped at the first failing element, after a passing prefix |
| Functional.Any | Example/Pods/LionheartExtensions/Pod/Classes/Functional.swift:56-64 | the loop returns whether any passes; when true it stopped at the first passing element |
| Functional.AllGeneric | Example/Pods/LionheartExtensions/Pod/Classes/Functional.swift:66-74 | the generic `all` ignores `test` and asks `truthy` of every element |
| Functional.NilDefeatsAllGeneric | Example/Pods/LionheartExtensions/Pod/Classes/Functional.swift:66-74 | one `nil` element makes the generic `all` false |
| Functional.AnyGeneric | Example/Pods/LionheartExtensions/Pod/Classes/Functional.swift:76-86 | the generic `any` is `any` over the non-`nil` elements bridged by `as AnyObject?`, and `test` never sees `nil` |
| Functional.AsAnyObject | Example/Pods/LionheartExtensions/Pod/Classes/Functional.swift:79 | the bridge turns a whole number of another numeric type into an `Int`, leaves everything else, and so makes `truthy` accept exactly the positive whole numbers in addition |
| Functional.GenericAnyBridgesNumbers | Example/Pods/LionheartExtensions/Pod/Classes/Functional.swift:66-86 | for `[5.0]` (any positive whole non-`Int` number) the generic `any` with `truthy` holds, while `truthy` and the generic `all` reject it |
| Functional.AllNilGivesNothing | Example/Pods/LionheartExtensions/Pod/Classes/Functional.swift:76-86 | a list of `nil`s gives false for every test |
| Functional.AllOrThrowWithoutErrors | Example/Pods/LionheartExtensions/Pod/Classes/Functional.swift:89-94 | when the predicate never throws, `Array.all` is plain `all` of its answers |
| Functional.AllOrThrowError | Example/Pods/LionheartExtensions/Pod/Classes/Functional.swift:89-94 | a rethrown error is the predicate's error on some element, and every element before it passed |
| Functional.ArrayAll | Example/Pods/LionheartExtensions/Pod/Classes/Functional.swift:89-94 | the loop stops at the first `false` or error and returns it |
| Functional.ArrayAny | Example/Pods/LionheartExtensions/Pod/Classes/Functional.swift:96-103 | the loop is `any` with a throwing element counted as `false` |
| DateFormatters.WithFormat | Example/Pods/LionheartExtensions/Pod/Classes/Core/DateFormatter+LionheartExtensions.swift:35-39 | a formatter gets locale `en_US_POSIX` and exactly its format string |
| DateFormatters.Row | Example/Pods/LionheartExtensions/Pod/Classes/Core/DateFormatter+LionheartExtensions.swift:74-76 | one date format joined by a space with each time format, in order |
| DateFormatters.Combined | Example/Pods/LionheartExtensions/Pod/Classes/Core/DateFormatter+LionheartExtensions.swift:73-77 | `dates × times` candidates |
| DateFormatters.Formatter | Example/Pods/LionheartExtensions/Pod/Classes/Core/DateFormatter+LionheartExtensions.swift:42-94 | the space-count loop, candidate-building loops and labelled search compute `FormatterFor` |
| DateFormatters.CombinedFormatters | Example/Pods/LionheartExtensions/Pod/Classes/Core/DateFormatter+LionheartExtensions.swift:73-77 | the nested loops append every date format with every time format, date-major (`Combined`) |
| DateFormatters.FirstParsing | Example/Pods/LionheartExtensions/Pod/Classes/Core/DateFormatter+LionheartExtensions.swift:80-93 | the labelled search returns the first formatter under which every input parses, or `nil` (`FirstParsingAll`) |
| DateFormatters.Candidates | Example/Pods/LionheartExtensions/Pod/Classes/Core/DateFormatter+LionheartExtensions.swift:61-78 | there are candidates exactly for 0 to 3 spaces |
| DateFormatters.FormatterFor | Example/Pods/LionheartExtensions/Pod/Classes/Core/DateFormatter+LionheartExtensions.swift:42-94 | a formatter comes back only for inputs that share a space count of at most 3 |
| DateFormatters.NoInputsNoFormatter | Example/Pods/LionheartExtensions/Pod/Classes/Core/DateFormatter+LionheartExtensions.swift:56-59 | no inputs give `nil` |
| DateFormatters.InconsistentSpacesNoFormatter | Example/Pods/LionheartExtensions/Pod/Classes/Core/DateFormatter+LionheartExtensions.swift:44-54 | two inputs with different space counts give `nil` |
| DateFormatters.TooManySpacesNoFormatter | Example/Pods/LionheartExtensions/Pod/Classes/Core/DateFormatter+LionheartExtensions.swift:66-71 | a common space count above 3 gives `nil` |
| DateFormatters.CandidateCounts | Example/Pods/LionheartExtensions/Pod/Classes/Core/DateFormatter+LionheartExtensions.swift:26-31 | 5, 10, 15 and 5 candidates for 0–3 spaces, none beyond |
| DateFormatters.CombinedAt | Example/Pods/LionheartExtensions/Pod/Classes/Core/DateFormatter+LionheartExtensions.swift:73-77 | candidate `i·|times| + j` is date format `i`, a space, time format `j` |
| DateFormatters.CandidateOrder | Example/Pods/LionheartExtensions/Pod/Classes/Core/DateFormatter+LionheartExtensions.swift:65-78 | for 1–3 spaces the candidates are in date-major order |
| DateFormatters.NoSpacesInDates | Example/Pods/LionheartExtensions/Pod/Classes/Core/DateFormatter+LionheartExtensions.swift:12-16 | no date format holds a space |
| DateFormatters.TimeSpaces | Example/Pods/LionheartExtensions/Pod/Classes/Core/DateFormatter+LionheartExtensions.swift:18-31 | every time format in list `k` holds `k - 1` spaces |
| DateFormatters.CandidatesMatchInputs | Example/Pods/LionheartExtensions/Pod/Classes/Core/DateFormatter+LionheartExtensions.swift:12-39 | every candidate for `k` spaces has the POSIX locale and exactly `k` spaces |
| DateFormatters.FirstParsingAllIsFirst | Example/Pods/LionheartExtensions/Pod/Classes/Core/DateFormatter+LionheartExtensions.swift:80-93 | the search returns a formatter that parses every input, with no earlier one that does; `nil` only if none does |
| DateFormatters.FormatterIsFirstCandidate | Example/Pods/LionheartExtensions/Pod/Classes/Core/DateFormatter+LionheartExtensions.swift:42-94 | a result has the POSIX locale, parses every input, has as many spaces as each input, and is a candidate with no earlier candidate parsing them all |
| DateFormatters.NoFormatterMeansNoCandidate | Example/Pods/LionheartExtensions/Pod/Classes/Core/DateFormatter+LionheartExtensions.swift:80-93 | for consistent inputs of at most 3 spaces, `nil` means no candidate parses them all |
| FontDisplayName.InsertSpaces | Example/Pods/LionheartExtensions/Pod/Classes/Core/UIFont+LionheartExtensions.swift:30-31 | the rewrite adds one character per lower-to-upper boundary |
| FontDisplayName.InsertSpacesKeepsOrder | Example/Pods/LionheartExtensions/Pod/Classes/Core/UIFont+LionheartExtensions.swift:20-31 | only spaces are inserted; every other character keeps its order |
| FontDisplayName.InsertSpacesRemovesBoundaries | Example/Pods/LionheartExtensions/Pod/Classes/Core/UIFont+LionheartExtensions.swift:20-31 | no lower-to-upper boundary is left |
| FontDisplayName.InsertSpacesWithoutBoundaries | Example/Pods/LionheartExtensions/Pod/Classes/Core/UIFont+LionheartExtensions.swift:20-31 | a name without boundaries is not rewritten |
| FontDisplayName.ReplaceDashes | Example/Pods/LionheartExtensions/Pod/Classes/Core/UIFont+LionheartExtensions.swift:32-33 | same length; each `-` a space, all else kept |
| FontDisplayName.Components | Example/Pods/LionheartExtensions/Pod/Classes/Core/UIFont+LionheartExtensions.swift:32 | at least one component, none holding the separator |
| FontDisplayName.Joined | Example/Pods/LionheartExtensions/Pod/Classes/Core/UIFont+LionheartExtensions.swift:33 | no parts join to `""`; otherwise the length is the parts' total plus one separator between each two |
| FontDisplayName.JoinedComponents | Example/Pods/LionheartExtensions/Pod/Classes/Core/UIFont+LionheartExtensions.swift:32-33 | splitting at `-` and joining with a space replaces each `-` by a space |
| FontDisplayName.ReplaceMatches | Example/Pods/LionheartExtensions/Pod/Classes/Core/UIFont+LionheartExtensions.swift:30-31 | the scan emits the rewritten name |
| FontDisplayName.DisplayName | Example/Pods/LionheartExtensions/Pod/Classes/Core/UIFont+LionheartExtensions.swift:29-34 | `displayName` is the specified name: no `-`, one character longer per boundary |
| FontDisplayName.Displayed | Example/Pods/LionheartExtensions/Pod/Classes/Core/UIFont+LionheartExtensions.swift:29-34 | the display name holds no `-` and is one space longer per boundary |
| FontDisplayName.DisplayedIdempotent | Example/Pods/LionheartExtensions/Pod/Classes/Core/UIFont+LionheartExtensions.swift:29-34 | applying the transform to its own output changes nothing |
| FontDisplayName.DisplayedSample | Example/Pods/LionheartExtensions/Pod/Classes/Core/UIFont+LionheartExtensions.swift:29-34 | `"HelveticaNeue-Bold"` displays as `"Helvetica Neue Bold"` |
| LegacyFontDisplayName.DisplayedAsWritten | Example/Pods/LionheartExtensions/Pod/Classes/Core/UIFont.swift:21-27 | as written: no `-` is left, and the name grows by one space per boundary inside the scanned `range()` only |
| LegacyFontDisplayName.DisplayName | Example/Pods/LionheartExtensions/Pod/Classes/Core/UIFont.swift:21-27 | the throwing `displayName()` never throws and returns the name as written |
| LegacyFontDisplayName.ScanAgreesOnBmp | Example/Pods/LionheartExtensions/Pod/Classes/Core/UIFont.swift:24 | on Basic Multilingual Plane names the older version returns the newer `displayName` |
| LegacyFontDisplayName.OutsideBmpThenBoundary | Example/Pods/LionheartExtensions/Pod/Classes/Core/UIFont.swift:24 | for every scalar beyond the Basic Multilingual Plane followed by a lower-to-upper boundary, the older version leaves the boundary where the newer one spaces it |
| LegacyFontDisplayName.ScanStopsEarly | Example/Pods/LionheartExtensions/Pod/Classes/Core/UIFont.swift:24 | `"😀aB"` stays `"😀aB"`, where the newer version gives `"😀a B"` |

## Left out

- Rendering: the `UIBezierPath` arc, `CGColor`s, line cap, `addSublayer` and the animation's timing function are platform drawing. An animation is only recorded as its key path, from and to values, and duration.
- The ring view's required `init?(coder:)` initialisers only trap or defer to UIKit.
- `UIColor` construction, `lighten`, `darken` and `isDark` are `CGFloat` arithmetic over UIKit.
- `scaledToDeviceWidth` reads the screen size.
- Floating point: `Float`, `CGFloat` and `Float(a)` are exact reals. The alpha of `"rgba(…, 0.15)"` is exactly 15/100, not the nearest `Float`.
- ColorRepresentation.ArrayLiteral and LegacyColorRepresentation.ArrayLiteral: array elements are reals and `Int(Float)` is truncation, as in the `map { Int($0) }` of both files. The trap on non-finite or out-of-range floats is not modelled.
- Regular expressions: inputs are ASCII text. ICU's `$` also matches before a final newline, and `\d` accepts every Unicode digit; the model reads `$` as end of input and `\d` as `0`–`9`.
- The string helpers map case on ASCII letters only. Other characters are caseless here.
- Strings are sequences of Unicode scalars, not grapheme clusters. `StringExtensions.Length` counts UTF-16 units by scalar (one or two each).
- The older `length` (Example/Pods/LionheartExtensions/Pod/Classes/Core/String.swift:73-75) is `NSString`'s UTF-16 length, which is `StringExtensions.Length`; it is not written out again.
- `URLEncodedString` and `URLEncode` use Foundation's `urlQueryAllowed` set.
- The `NSMutableAttributedString` attribute helpers only pass a full range to Foundation.
- `NSString.slugify` calls a method that does not exist.
- `toRange` is left out: it converts an `NSRange` to string indices through Foundation.
- `VariableNamingFormat.camelCase` traps (`fatalError`). The conversions require another format, which is a precondition.
- `CharacterSet` literal conformance: a character set is a Dafny `set<char>`. `isComposedOf` tests membership by scalar.
- Index arithmetic does not overflow: `Int` offsets in `chunks` and the generator's stride are unbounded integers here.
- LegacyArrayChunks.ChunkGenerator.constructor: requires a non-zero size, since `stride(to:by:)` traps on a zero step.
- DateFormatters.Formatter: whether ICU parses a string with a format is the parameter `parses`.
- Underscores: its own contract says only that no capital is left and that a leading `_` is kept. The exact count of underscores is UnderscoresOnePerRun, stated for input that neither begins nor ends with `_`; otherwise the trimming also removes underscores of the input, a number the lemma does not state.
- PascalFromShape: states only that no `_` is left and the length; which character goes where is PascalFromAt.
- PascalCase: its own contract gives the same shape; the character at each position is PascalCaseAt.
- MarkCapitalRunsMarksEveryRun: states at least one `_` before each run of capitals; that there is exactly one is MarkCapitalRunsOnePerRun.
- LegacyStringExtensions.MutableString.ReplaceSpacesWithDashes: uses the whole-string dashing, while the source's mutator calls the short-scan `stringByReplacingSpacesWithDashes()`. Beyond the Basic Multilingual Plane it is the corrected behaviour; the as-written one is ReplacingSpacesWithDashesAsWritten.
- LegacyStringExtensions.MutableString.ReplaceCapitalsWithUnderscores: uses the whole-string conversion; the source's short scan is UnderscoresAsWritten.
- LegacyStringExtensions.MutableString.ConvertToNamingFormat: `.Underscores` uses the whole-string conversion; the source's short scan is UnderscoresAsWritten.
- LegacyStringExtensions.NSStringReplacingSpacesWithDashes: forwards to the whole-string dashing, not the short scan of String.swift:203-205.
- LegacyStringExtensions.NSStringConverting: forwards to the whole-string conversion, not the short scan of String.swift:207-209.
- LegacyStringExtensions.NSAttributedStringReplacingSpacesWithDashes: forwards to the whole-string dashing, not the short scan of String.swift:237-239.
- LegacyStringExtensions.NSAttributedStringConverting: forwards to the whole-string conversion, not the short scan of String.swift:241-243.
- LegacyStringExtensions.Range: `characters.count` counts grapheme clusters, and the model counts scalars. Where a cluster holds several scalars (`"A\r\nB"`), the older regular expressions scan even less than the `AsWritten` members say.
- Functional.AsAnyObject: a non-whole number bridged to `NSNumber` stays non-truthy, as under the exact `NSNumber` casts of Swift 4. Under Swift 3 the cast `as? Int` truncated instead, which the model does not follow.
- The rest of the pod is not part of this model. This covers its views and view controllers, images, files, windows and screens, networking, concurrency, reflection, decimal numbers, index paths, dates, buttons and other UI components.

## Findings

| source | as written | input that shows it | evidently intended | confidence | as-written member | corrected member |
|---|---|---|---|---|---|---|
| Example/Pods/LionheartExtensions/Pod/Classes/ColorRepresentation.swift:50-83 | the `.HEX` assigned after a hex match is always overwritten by the `guard`, which sets `.invalid` when no rgb capture exists | `"f00"`, `"#FF0000"` | return `.HEX` of the digits, as the older `valueFromString` does | high (proved; not executed) | ColorRepresentation.HexStringsBecomeInvalid | ColorRepresentation.IntendedHexStrings |
| Example/Pods/LionheartExtensions/Pod/Classes/ColorRepresentation.swift:46 | the channel alternation `1?[0-9]{1,2}\|2[0-5][0-5]` rejects 206–209, 216–219, 226–229, 236–239 and 246–249 | `"rgb(249, 0, 0)"` | accept every value 0–255 (`25[0-5]\|2[0-4][0-9]\|1?[0-9]{1,2}`) | high (proved; not executed) | ColorRepresentation.ChannelGapRejected | ColorRepresentation.IntendedRgbRoundTrip |
| Example/Pods/LionheartExtensions/Pod/Classes/Core/String+LionheartExtensions.swift:223-225 | `NSString.stringByUppercasingFirstLetter` forwards to the lowercasing variant | `"Abc"` gives `"abc"` | forward to `stringByUppercasingFirstLetter` | high (proved; not executed) | StringExtensions.NSStringUppercasingFirstLetter | StringExtensions.NSStringUppercasingFirstLetterCorrected |
| Example/Pods/LionheartExtensions/Pod/Classes/Core/String+LionheartExtensions.swift:253-255 | `NSAttributedString.stringByUppercasingFirstLetter` forwards to the lowercasing variant | `"Abc"` gives `"abc"` | forward to `stringByUppercasingFirstLetter` | high (proved; not executed) | StringExtensions.NSAttributedStringUppercasingFirstLetter | StringExtensions.NSStringUppercasingFirstLetterCorrected |
| Example/Pods/LionheartExtensions/Pod/Classes/Core/String+LionheartExtensions.swift:261-263 | `NSAttributedString.stringByConverting` ignores `naming` and always converts to underscores | `"foo_bar"` to `.pascalCase` stays `"foo_bar"` | pass `naming` on | high (proved; not executed) | StringExtensions.AttributedConvertingIgnoresNaming | StringExtensions.NSAttributedStringConvertingCorrected |
| Example/Pods/LionheartExtensions/Pod/Classes/Core/String.swift:118-122 | the regular expression of `stringByReplacingSpacesWithDashes()` scans `range()`, which is `characters.count` long, as a UTF-16 range, so it stops short on text beyond the Basic Multilingual Plane | `"😀 "` stays `"😀 "` | scan the whole UTF-16 length, as the newer file's `range` does | medium (not executed) | LegacyStringExtensions.ScanStopsEarly | LegacyStringExtensions.StringByReplacingSpacesWithDashes |
| Example/Pods/LionheartExtensions/Pod/Classes/Core/String.swift:127-137 | the `([A-Z]+)` replacement of `.Underscores` scans the same short `range()` | `"😀A"` gives `"😀a"`, not `"😀_a"` | scan the whole UTF-16 length | medium (not executed) | LegacyStringExtensions.ScanStopsEarly | LegacyStringExtensions.StringByConvertingToNamingFormat |
| Example/Pods/LionheartExtensions/Pod/Classes/Core/UIFont.swift:24 | the `([a-z])([A-Z])` replacement of `displayName()` scans `fontName.range()`, the same `characters.count` taken as UTF-16 units | `"😀aB"` stays `"😀aB"`, not `"😀a B"` | scan the whole UTF-16 length, as the newer `displayName` does | medium (not executed) | LegacyFontDisplayName.ScanStopsEarly | FontDisplayName.Displayed |
| Example/Pods/LionheartExtensions/Pod/Classes/Core/String.swift:199-201 | `NSString.stringByUppercasingFirstLetter()` forwards to the lowercasing variant | `"Abc"` gives `"abc"` | forward to `stringByUppercasingFirstLetter()` | high (proved; not executed) | LegacyStringExtensions.NSStringUppercasingFirstLetter | LegacyStringExtensions.NSStringUppercasingFirstLetterCorrected |
| Example/Pods/LionheartExtensions/Pod/Classes/Core/String.swift:233-235 | `NSAttributedString.stringByUppercasingFirstLetter()` forwards to the lowercasing variant | `"Abc"` gives `"abc"` | forward to `stringByUppercasingFirstLetter()` | high (proved; not executed) | LegacyStringExtensions.NSAttributedStringUppercasingFirstLetter | LegacyStringExtensions.NSStringUppercasingFirstLetterCorrected |
| Example/Pods/LionheartExtensions/Pod/Classes/Core/String.swift:241-243 | `NSAttributedString.stringByConvertingToNamingFormat` ignores `naming` and always converts to underscores | `"foo_bar"` to `.PascalCase` stays `"foo_bar"` | pass `naming` on | high (proved; not executed) | LegacyStringExtensions.AttributedConvertingIgnoresNaming | LegacyStringExtensions.NSAttributedStringConvertingCorrected |
