# Chart options to JavaScript, verified

This project models the part of CMENGoogleChartsBundle that turns a chart's
option object into the JavaScript statement `var <name> = {...};` handed to
the Google Charts library, together with the option object of a combo chart.

- `options_output.dfy` models `OptionsOutput`.
  - `JavascriptOutput.OptionsOutput.Draw` walks the processed options in order. For each entry it appends `"key":` and then the value's text. After every entry whose key is not the last key it appends `, `. The statement is wrapped in `var <name> = {` and `};` plus a newline.
  - Each value takes one of three branches, tried in this order:
    - a date: the value is an array with a non-null `date` entry, and the date collaborator writes it;
    - the `series` key: json_encode with `JSON_FORCE_OBJECT`;
    - anything else: plain json_encode.
  - `Draw` is proved equal to the specification function `Emit`. The lemmas of `JavascriptOutputProperties` then state the shape of `Emit`'s output: prefix, suffix, length, where each entry sits, where the separators are, that nothing trails the last entry, and which branch each value takes.
- `json_encode.dfy` models json_encode over the PHP values the options hold.
  - `ToJson` decides between a JSON array and a JSON object. A PHP array whose keys are exactly 0..n-1 in order becomes an array unless `JSON_FORCE_OBJECT` is given.
  - `Serialize` writes the JSON text with no whitespace. Strings are escaped the way json_encode escapes them by default: quote, backslash and slash behind a backslash, the short control escapes, other control characters and every non-ASCII character as `\uXXXX`, with a UTF-16 surrogate pair above U+FFFF.
  - The escape is proved lossless by an unescape round trip.
- `php_values.dfy` holds the PHP values:
  - arrays are ordered sequences of keyed entries;
  - `OrderedMap` is a sequence of string-keyed entries with distinct keys, which is what `Draw` receives.
- `strings.dfy` holds two groups of helpers:
  - joining pieces with a separator, with lemmas that locate each piece and each separator;
  - decimal notation of integers, with a round trip.
- `combo_chart_options.dfy` models `ComboChartOptions`.
  - It is a class with the nineteen fields the PHP class declares.
  - The constructor creates seven fresh nested option objects and leaves every other option unset.
  - The seven getters return the stored objects themselves.
  - Each of the twelve fluent setters changes exactly its own field and returns the receiver.
- `scenarios.dfy` works through a small chart with a title, a one-entry series list and `isStacked => false`.

The date collaborator, `DateOutputInterface::draw` applied to `new \DateTime(...)`, is a parameter of the model. It is a function from the stored `date` payload to `Some(text)`, or to `None` when `DateTime` rejects the payload. PHP throws an exception in that case; `Draw` returns `Failure(MalformedDate(key))` instead.

`Draw` follows the code on which key counts as last. The key is read from the map after pruning and renaming (`end($options)` at line 41 runs after line 37). So the entry that ends the processed map never carries a separator, even when pruning removed the object's original last field.

## Model

| member | source | states |
|---|---|---|
| JavascriptOutput.OptionsOutput.constructor | Output/Javascript/OptionsOutput.php:22-25 | the emitter keeps the date collaborator it is given |
| JavascriptOutput.OptionsOutput.WriteValue | Output/Javascript/OptionsOutput.php:46-53 | the text of one value. A non-null `date` entry goes to the collaborator and fails, naming the key, when the date cannot be read. Otherwise the `series` key gets json_encode with JSON_FORCE_OBJECT and every other key gets plain json_encode. |
| JavascriptOutput.OptionsOutput.Draw | Output/Javascript/OptionsOutput.php:30-63 | the result is `Emit`: `var <name> = {`, then the entry texts in map order joined by `, `, then `};` and a newline. The first unreadable date gives a failure carrying that entry's key. An empty map gives exactly `var <name> = {};` and a newline. |
| JavascriptOutput.DateTest | Output/Javascript/OptionsOutput.php:46-47 | `isset($value['date'])` holds only for an array with a non-null `date` entry, and the payload handed on is the value stored under that key. An array with no non-null `date` entry is not a date. |
| JavascriptOutput.BranchCases | Output/Javascript/OptionsOutput.php:46-52 | each value takes exactly one branch. A date takes the date branch under any key. Otherwise the `series` key takes the object-forcing branch and every other key the generic one. |
| JavascriptOutput.ValueText | Output/Javascript/OptionsOutput.php:46-53 | a value's text fails exactly when the value is a date that the collaborator rejects, and the failure names the option key |
| JavascriptOutput.EntryHeadLayout | Output/Javascript/OptionsOutput.php:44 | an entry opens with a double quote, the key exactly as given, then `":` |
| JavascriptOutput.EntryTextShape | Output/Javascript/OptionsOutput.php:44-53 | one entry fails exactly when its value is a date the collaborator rejects, and the failure names its key. Otherwise its text is the head followed by the value's text. |
| JavascriptOutput.EntryTexts | Output/Javascript/OptionsOutput.php:43-54 | a successful walk yields one text per entry |
| JavascriptOutput.EntryTextsSnoc | Output/Javascript/OptionsOutput.php:43-54 | walking one more entry appends that entry's text to the texts so far |
| JavascriptOutput.EntryTextsSucceed | Output/Javascript/OptionsOutput.php:43-54 | the walk succeeds exactly when every entry can be written, and text k is then entry k's text |
| JavascriptOutput.EntryTextAt | Output/Javascript/OptionsOutput.php:44-53 | text k is the key between double quotes, a colon, then the text of entry k's value |
| JavascriptOutput.EntryTextsFail | Output/Javascript/OptionsOutput.php:46-47 | a failed walk reports the error of an entry whose date is unreadable, and every earlier entry could be written |
| JavascriptOutput.FailureIsFinal | Output/Javascript/OptionsOutput.php:47 | once an entry fails, the entries after it do not change the outcome |
| JavascriptOutput.FailureAt | Output/Javascript/OptionsOutput.php:47 | the first entry whose text fails decides the error of the whole walk |
| JavascriptOutput.EntryTextsStep | Output/Javascript/OptionsOutput.php:43-54 | one turn of the loop extends the texts by the current entry's `"key":` and value text |
| JavascriptOutput.EmitStep | Output/Javascript/OptionsOutput.php:56-58 | after entry i the text is the opening plus the texts so far joined by `, `. A separator follows exactly when the entry's key is not the last key, which is exactly when i is not the last index. |
| JavascriptOutput.LastKeyAt | Output/Javascript/OptionsOutput.php:41-42 | with distinct keys, an entry has the last key exactly when it is the last entry |
| JavascriptOutput.EmitEmpty | Output/Javascript/OptionsOutput.php:39-60 | with no options the statement is exactly `var <name> = {};` and a newline |
| JavascriptOutputProperties.OpeningLayout | Output/Javascript/OptionsOutput.php:39 | the opening is `var `, the name exactly as given, then ` = {` |
| JavascriptOutputProperties.EmitFails | Output/Javascript/OptionsOutput.php:30-63 | drawing fails exactly when some option holds a date the collaborator rejects, and the error names the key of such an option |
| JavascriptOutputProperties.EmitFrame | Output/Javascript/OptionsOutput.php:39-60 | the statement starts with `var `, the name as given and ` = {`, and ends with `};` and a newline. Its length is opening + entry texts + 2(n-1) separator characters + closing, so n entries carry n-1 separators. |
| JavascriptOutputProperties.EmitTextAt | Output/Javascript/OptionsOutput.php:43-54 | entry text k sits at its start offset in the statement |
| JavascriptOutputProperties.EmitEntryAt | Output/Javascript/OptionsOutput.php:44-53 | at entry k's start offset: a double quote, the key unescaped, `":`, then the value's text |
| JavascriptOutputProperties.EmitSeparator | Output/Javascript/OptionsOutput.php:56-58 | every entry but the last is followed by `, `, and the next entry starts right after it |
| JavascriptOutputProperties.EmitLastEntry | Output/Javascript/OptionsOutput.php:56-60 | the last entry is followed directly by `};` and a newline, with no separator |
| JavascriptOutputProperties.DateWinsOverSeries | Output/Javascript/OptionsOutput.php:46-50 | a value with a non-null `date` entry takes the date branch under any key, `series` included, and its text is the collaborator's |
| JavascriptOutputProperties.SeriesHasNoArrays | Output/Javascript/OptionsOutput.php:49-50 | a non-date value under `series` is written as JSON without an array at any depth |
| JavascriptOutputProperties.GenericIgnoresKey | Output/Javascript/OptionsOutput.php:51-53 | a non-date value under any other key is plain json_encode, so the same value gives the same text under every such key |
| JavascriptOutputProperties.ListBrackets | Output/Javascript/OptionsOutput.php:46-53 | a PHP list is never a date. Its text opens with `{` under `series` and with `[` under every other key. |
| JsonEncode.ForceObjectHasNoArrays | Output/Javascript/OptionsOutput.php:50 | with JSON_FORCE_OBJECT no JSON array appears at any depth |
| JsonEncode.ToJsonShape | Output/Javascript/OptionsOutput.php:50-52 | only PHP arrays become JSON arrays or objects. An array becomes a JSON array exactly when it is a list and objects are not forced, and it keeps one item or member per entry. |
| JsonEncode.ForcedListMembers | Output/Javascript/OptionsOutput.php:49-50 | with JSON_FORCE_OBJECT a list becomes an object whose members are named "0", "1", … after their positions and hold the items in order |
| JsonEncode.ListItems | Output/Javascript/OptionsOutput.php:52 | without the flag a list becomes a JSON array of its items in order |
| JsonEncode.NonListMembers | Output/Javascript/OptionsOutput.php:50-52 | an array that is not a list becomes an object, flag or no flag, with one member per entry in order, named by the entry's key |
| JsonEncode.ForceObjectOnlyAffectsLists | Output/Javascript/OptionsOutput.php:49-53 | for a value holding no list at any depth, JSON_FORCE_OBJECT changes nothing |
| JsonEncode.ArrayDelimiters | Output/Javascript/OptionsOutput.php:50-52 | an encoded array opens with `[` exactly when it is a list and objects are not forced, otherwise with `{`, and its closing bracket matches |
| JsonEncode.SerializeDelimiters | Output/Javascript/OptionsOutput.php:50-52 | the encoded text of a string is between double quotes, that of an array between brackets, that of an object between braces |
| JsonEncode.EscapeCharPlain | Output/Javascript/OptionsOutput.php:52 | a character is written as itself exactly when it is printable ASCII other than quote, backslash and slash. Every other character becomes an escape that starts with a backslash. |
| JsonEncode.EscapeUnchanged | Output/Javascript/OptionsOutput.php:52 | escaping never shortens a string, and leaves it unchanged exactly when every character is written as itself |
| JsonEncode.UnescapeRejectsRaw | Output/Javascript/OptionsOutput.php:52 | read back, the inside of a string literal is malformed when it holds a raw double quote or control character, as RFC 8259 section 7 requires |
| JsonEncode.UnescapeEscapeChar | Output/Javascript/OptionsOutput.php:52 | reading back the escape of one character gives that character, whatever follows it. This holds for two-character escapes, single `\uXXXX` escapes, raw ASCII and surrogate pairs alike. |
| JsonEncode.EscapeRoundTrip | Output/Javascript/OptionsOutput.php:52 | json_encode's string escaping loses nothing: unescaping gives the string back. The reader rejects a raw double quote or control character, so the escaped text is the inside of one well-formed JSON string literal. |
| JsonEncode.UnescapeSurrogates | Output/Javascript/OptionsOutput.php:52 | a high-surrogate escape followed by a low-surrogate escape reads back as the single character above U+FFFF that they combine to |
| JsonEncode.EscapePrintable | Output/Javascript/OptionsOutput.php:52 | without flags, json_encode writes every string that holds no DEL using printable ASCII only |
| Strings.JoinLength | Output/Javascript/OptionsOutput.php:56-58 | n pieces joined with a separator have the pieces' total length plus n-1 separators |
| Strings.JoinPieceAt | Output/Javascript/OptionsOutput.php:43-58 | piece k of a join sits at its offset: after every earlier piece and one separator each |
| Strings.JoinSeparatorAfter | Output/Javascript/OptionsOutput.php:56-58 | in a join, each piece but the last is followed by the separator and then the next piece |
| Strings.NatToStringDigits | Output/Javascript/OptionsOutput.php:52 | json_encode writes a natural number with decimal digits only and no superfluous leading zero |
| Strings.NatToStringValue | Output/Javascript/OptionsOutput.php:52 | the digits read back as the number |
| Strings.IntToStringRoundTrip | Output/Javascript/OptionsOutput.php:52 | a minus sign appears exactly for negative integers, and the digits read back as the magnitude |
| PhpValues.Lookup | Output/Javascript/OptionsOutput.php:46 | `$a['date']` is set exactly when some entry has that key, and the value found is stored under it |
| Scenarios.RedSeriesJson | Output/Javascript/OptionsOutput.php:49-52 | the series list `[0 => ['color' => 'red']]` becomes an object keyed "0" with objects forced, and an array otherwise |
| Scenarios.SalesEntries | Output/Javascript/OptionsOutput.php:46-53 | in the sales chart, the title and `isStacked` take the generic branch and the series list takes the object-forcing branch |
| Scenarios.SalesTexts | Output/Javascript/OptionsOutput.php:43-54 | the sales chart's entries are written in their order |
| Scenarios.SalesChart | Output/Javascript/OptionsOutput.php:30-63 | the sales chart emits `var chart1 = {` with the title entry, `, `, the series entry as an object keyed "0", `, `, `"isStacked":false`, then `};` and a newline |
| Scenarios.ListOutsideSeries | Output/Javascript/OptionsOutput.php:52 | the same list under another key stays a JSON array |
| ComboChart.ComboChartOptions.constructor | GoogleCharts/Options/ComboChart/ComboChartOptions.php:179-190 | seven distinct fresh nested objects of their declared classes, all with no option set. The other twelve options are unset. |
| ComboChart.NestedOptions.constructor | GoogleCharts/Options/ComboChart/ComboChartOptions.php:183-189 | a nested option object built for the chart is of the class asked for and has no option set |
| ComboChart.ComboChartOptions.GetAnimation | GoogleCharts/Options/ComboChart/ComboChartOptions.php:196-199 | the stored animation object itself |
| ComboChart.ComboChartOptions.GetAnnotations | GoogleCharts/Options/ComboChart/ComboChartOptions.php:204-207 | the stored annotations object itself |
| ComboChart.ComboChartOptions.GetBar | GoogleCharts/Options/ComboChart/ComboChartOptions.php:212-215 | the stored bar object itself |
| ComboChart.ComboChartOptions.GetCandlestick | GoogleCharts/Options/ComboChart/ComboChartOptions.php:220-223 | the stored candlestick object itself |
| ComboChart.ComboChartOptions.GetCrosshair | GoogleCharts/Options/ComboChart/ComboChartOptions.php:228-231 | the stored crosshair object itself |
| ComboChart.ComboChartOptions.GetHAxis | GoogleCharts/Options/ComboChart/ComboChartOptions.php:236-239 | the stored horizontal axis object itself |
| ComboChart.ComboChartOptions.GetLegend | GoogleCharts/Options/ComboChart/ComboChartOptions.php:244-247 | the stored legend object itself |
| ComboChart.ComboChartOptions.SetCurveType | GoogleCharts/Options/ComboChart/ComboChartOptions.php:254-259 | sets `curveType` and leaves every other field unchanged. Any string is accepted, not only 'none' and 'function'. Returns the receiver. |
| ComboChart.ComboChartOptions.SetDataOpacity | GoogleCharts/Options/ComboChart/ComboChartOptions.php:266-271 | sets `dataOpacity` and leaves every other field unchanged; returns the receiver |
| ComboChart.ComboChartOptions.SetFocusTarget | GoogleCharts/Options/ComboChart/ComboChartOptions.php:278-283 | sets `focusTarget` and leaves every other field unchanged; returns the receiver |
| ComboChart.ComboChartOptions.SetInterpolateNulls | GoogleCharts/Options/ComboChart/ComboChartOptions.php:290-295 | sets `interpolateNulls` and leaves every other field unchanged; returns the receiver |
| ComboChart.ComboChartOptions.SetOrientation | GoogleCharts/Options/ComboChart/ComboChartOptions.php:302-307 | sets `orientation` and leaves every other field unchanged; returns the receiver |
| ComboChart.ComboChartOptions.SetReverseCategories | GoogleCharts/Options/ComboChart/ComboChartOptions.php:314-319 | sets `reverseCategories` and leaves every other field unchanged; returns the receiver |
| ComboChart.ComboChartOptions.SetSelectionMode | GoogleCharts/Options/ComboChart/ComboChartOptions.php:326-331 | sets `selectionMode` and leaves every other field unchanged; returns the receiver |
| ComboChart.ComboChartOptions.SetTrendlines | GoogleCharts/Options/ComboChart/ComboChartOptions.php:338-343 | sets `trendlines` and leaves every other field unchanged; returns the receiver |
| ComboChart.ComboChartOptions.SetVAxes | GoogleCharts/Options/ComboChart/ComboChartOptions.php:350-355 | sets `vAxes` and leaves every other field unchanged; returns the receiver |
| ComboChart.ComboChartOptions.SetAreaOpacity | GoogleCharts/Options/ComboChart/ComboChartOptions.php:362-367 | sets `areaOpacity` and leaves every other field unchanged; returns the receiver |
| ComboChart.ComboChartOptions.SetIsStacked | GoogleCharts/Options/ComboChart/ComboChartOptions.php:374-379 | sets `isStacked` and leaves every other field unchanged; returns the receiver |
| ComboChart.ComboChartOptions.SetSeriesType | GoogleCharts/Options/ComboChart/ComboChartOptions.php:386-391 | sets `seriesType` and leaves every other field unchanged; returns the receiver |
| ComboChart.ChainSetters | GoogleCharts/Options/ComboChart/ComboChartOptions.php:254-391 | a chain of setter calls on the returned receiver has the effect of the same calls made one by one |
| ComboChart.SetTwice | GoogleCharts/Options/ComboChart/ComboChartOptions.php:374-379 | setting an option twice keeps only the second value |
| ComboChart.ConfigureLegend | GoogleCharts/Options/ComboChart/ComboChartOptions.php:244-247 | a change made through the object a getter returns is what the chart options hold afterwards, and their fields still point to the same objects |

## Left out

- The pruning of null values and empty arrays and the renaming of keys (OptionsOutput.php lines 32-37) are not modelled. Their bodies live in `AbstractOptionsOutput`, which is not part of this model. `Draw` takes their result: an ordered map with distinct string keys.
- As a consequence, nothing ties a `ComboChartOptions` object to the map `Draw` receives. The reflection-based reading of the object's fields is also in `AbstractOptionsOutput`.
- `DateOutputInterface::draw` and the parsing done by `new \DateTime(...)` are one function parameter, so date formats, locales and time zones are not modelled.
- An exception thrown by `DateTime` becomes a `Failure` result rather than a PHP exception.
- json_encode is modelled for null, booleans, integers, strings and arrays. Floats, objects and `JsonSerializable` are not modelled. Nor is the `false` that json_encode returns on invalid UTF-8 or excessive depth, which `.=` would append as an empty string.
- Strings are modelled as sequences of Unicode characters, not as UTF-8 bytes. Decoding the bytes, and the failure on bytes that are not UTF-8, is not part of this model.
- Integers are unbounded. PHP's 64-bit integer limits, and floats produced by overflow, are not modelled.
- PHP's loose `==` and `!=` on keys are modelled as string equality. Option keys are property names, so no numeric-string comparison arises. The array pointer moved by `end()` and read by `key()` is modelled as the key of the last entry.
- The fields and constructor of the parent class `LineOptions` (called at ComboChartOptions.php line 181) are not part of this model.
- The nested option classes (`AdvancedAnimation`, `Annotations`, `Bar`, `Candlestick`, `Crosshair`, `AdvancedHAxis`, `AdvancedLegend`, `VAxis`) are not part of this model. One class `NestedOptions` stands for them: its kind names the class, and `populated` lists the fields that hold a value.
- `areaOpacity` and `dataOpacity` are stored as `real`. No arithmetic is done on them.
- `trendlines` holds any PHP value, and `vAxes` a sequence of nested option objects. PHP stores whatever it is given.
- ComboChart.ComboChartOptions.SetCurveType, SetDataOpacity, SetFocusTarget, SetInterpolateNulls, SetOrientation, SetReverseCategories, SetSelectionMode, SetAreaOpacity, SetIsStacked, SetSeriesType and SetVAxes take the type their `@param` comment names: string, bool, real, or a sequence of nested option objects. The PHP setters are untyped, so they also store null (which unsets the option) or a value of any other type; the model does not capture those calls.
- `Value.Arr` admits arrays PHP cannot hold: a string key that PHP would turn into an integer (such as "0"), and duplicate keys in nested arrays. For such an array the model's json_encode may differ from PHP's: `['0' => v]` is a list in PHP and is written as an array. Only the top-level option map is required to have distinct keys.
- Embedding the statement into a page template is not modelled.
