/**
 * The emitter that turns a chart's options into the JavaScript statement
 * `var <name> = {...};` handed to the charting library.
 */
module JavascriptOutput {
  import opened Wrappers
  import opened Strings
  import opened PhpValues
  import opened JsonEncode

  /**
   * The date collaborator, together with the `DateTime` it is given: maps the
   * payload stored under a value's `date` key to the library's date
   * constructor text, or to None when `DateTime` rejects the payload (PHP
   * throws an exception there).
   */
  type DateOutput = Value -> Option<string>

  /** Why emission stops: the date stored under this option key could not be read. */
  datatype DrawError = MalformedDate(key: string)

  /** Which of the three encodings an option value receives. */
  datatype Branch = DateBranch | SeriesBranch | GenericBranch

  /** `isset($value['date'])`: the value is an array holding a non-null `date` entry. */
  predicate IsDate(v: Value)
  {
    v.Arr? && Lookup(v.entries, StrKey("date")).Some? && Lookup(v.entries, StrKey("date")).value != Null
  }

  /** `$value['date']`, the text the date is built from. */
  function DatePayload(v: Value): Value
    requires IsDate(v)
  {
    Lookup(v.entries, StrKey("date")).value
  }

  /**
   * A value is a date only if it is an array with a non-null `date` entry,
   * and its payload is the value stored under that key; an array whose
   * `date` entries are all null, or that has none, is not a date.
   */
  lemma DateTest(v: Value)
    ensures IsDate(v) ==>
      v.Arr? && DatePayload(v) != Null &&
      exists k :: 0 <= k < |v.entries| && v.entries[k] == (StrKey("date"), DatePayload(v))
    ensures v.Arr? && (forall k :: 0 <= k < |v.entries| ==> v.entries[k].0 != StrKey("date") || v.entries[k].1 == Null) ==>
      !IsDate(v)
  {
  }

  /** The date test comes first, then the `series` key; everything else is generic. */
  function BranchOf(key: string, v: Value): Branch
  {
    if IsDate(v) then DateBranch
    else if key == "series" then SeriesBranch
    else GenericBranch
  }

  /** Each value takes exactly one branch: a date under any key, else the `series` key, else generic. */
  lemma BranchCases(key: string, v: Value)
    ensures BranchOf(key, v) == DateBranch <==> IsDate(v)
    ensures BranchOf(key, v) == SeriesBranch <==> !IsDate(v) && key == "series"
    ensures BranchOf(key, v) == GenericBranch <==> !IsDate(v) && key != "series"
  {
  }

  /** The text emitted for the value of option `key`. Only the date branch can fail. */
  function ValueText(dateOutput: DateOutput, key: string, v: Value): (r: Result<string, DrawError>)
    ensures r.Failure? <==> IsDate(v) && dateOutput(DatePayload(v)).None?
    ensures r.Failure? ==> r.error == MalformedDate(key)
  {
    match BranchOf(key, v)
    case DateBranch =>
      (match dateOutput(DatePayload(v))
       case None => Failure(MalformedDate(key))
       case Some(text) => Success(text))
    case SeriesBranch => Success(Encode(v, true))
    case GenericBranch => Success(Encode(v, false))
  }

  /** The head of an entry: the key between double quotes, unescaped, then a colon. */
  function EntryHead(key: string): string
  {
    "\"" + key + "\":"
  }

  /** The head is the key, unescaped, behind a double quote and before `":`. */
  lemma EntryHeadLayout(key: string)
    ensures var h := EntryHead(key);
      |h| == |key| + 3 && h[0] == '"' && h[1..|key| + 1] == key && h[|key| + 1..] == "\":"
  {
  }

  /** The whole text of one entry. */
  function EntryText(dateOutput: DateOutput, entry: (string, Value)): Result<string, DrawError>
  {
    match ValueText(dateOutput, entry.0, entry.1)
    case Failure(e) => Failure(e)
    case Success(text) => Success(EntryHead(entry.0) + text)
  }

  /**
   * An entry fails exactly when its value is a date the collaborator
   * rejects, naming its key; otherwise its text is the head and then the
   * value's text.
   */
  lemma EntryTextShape(dateOutput: DateOutput, entry: (string, Value))
    ensures var r := EntryText(dateOutput, entry);
      (r.Failure? <==> IsDate(entry.1) && dateOutput(DatePayload(entry.1)).None?) &&
      (r.Failure? ==> r.error == MalformedDate(entry.0))
    ensures var r := EntryText(dateOutput, entry);
      var n := |entry.0| + 3;
      r.Success? ==>
        |r.value| >= n && r.value[..n] == EntryHead(entry.0) && r.value[n..] == ValueText(dateOutput, entry.0, entry.1).value
  {
    var r := EntryText(dateOutput, entry);
    if r.Success? {
      var n := |entry.0| + 3;
      EntryHeadLayout(entry.0);
      assert r.value == EntryHead(entry.0) + ValueText(dateOutput, entry.0, entry.1).value;
    }
  }

  /**
   * The entry texts of `m` in order, or the error of the first entry that
   * cannot be emitted.
   */
  function EntryTexts(dateOutput: DateOutput, m: seq<(string, Value)>): (r: Result<seq<string>, DrawError>)
    ensures r.Success? ==> |r.value| == |m|
  {
    if |m| == 0 then Success([])
    else
      match EntryTexts(dateOutput, m[..|m| - 1])
      case Failure(e) => Failure(e)
      case Success(texts) =>
        match EntryText(dateOutput, m[|m| - 1])
        case Failure(e) => Failure(e)
        case Success(text) => Success(texts + [text])
  }

  /** Appending an entry that can be emitted appends its text. */
  lemma EntryTextsSnoc(dateOutput: DateOutput, m: seq<(string, Value)>, entry: (string, Value), texts: seq<string>, text: string)
    requires EntryTexts(dateOutput, m) == Success(texts)
    requires EntryText(dateOutput, entry) == Success(text)
    ensures EntryTexts(dateOutput, m + [entry]) == Success(texts + [text])
  {
    assert (m + [entry])[..|m|] == m;
  }

  /** Emission succeeds exactly when every entry can be emitted, and then text k is entry k's. */
  lemma {:induction false} EntryTextsSucceed(dateOutput: DateOutput, m: seq<(string, Value)>)
    ensures EntryTexts(dateOutput, m).Success? <==> forall k :: 0 <= k < |m| ==> EntryText(dateOutput, m[k]).Success?
    ensures EntryTexts(dateOutput, m).Success? ==>
      forall k :: 0 <= k < |m| ==> EntryTexts(dateOutput, m).value[k] == EntryText(dateOutput, m[k]).value
  {
    if |m| > 0 {
      var init := m[..|m| - 1];
      EntryTextsSucceed(dateOutput, init);
      assert forall k :: 0 <= k < |m| - 1 ==> init[k] == m[k];
    }
  }

  /** Text k of a successful emission is entry k's head followed by the text of its value. */
  lemma EntryTextAt(dateOutput: DateOutput, m: seq<(string, Value)>, k: nat)
    requires EntryTexts(dateOutput, m).Success? && k < |m|
    ensures ValueText(dateOutput, m[k].0, m[k].1).Success?
    ensures EntryTexts(dateOutput, m).value[k] == EntryHead(m[k].0) + ValueText(dateOutput, m[k].0, m[k].1).value
  {
    EntryTextsSucceed(dateOutput, m);
    assert EntryText(dateOutput, m[k]).Success?;
  }

  /** A failed emission reports the error of the first entry that cannot be emitted. */
  lemma {:induction false} EntryTextsFail(dateOutput: DateOutput, m: seq<(string, Value)>)
    requires EntryTexts(dateOutput, m).Failure?
    ensures exists k :: 0 <= k < |m| && EntryText(dateOutput, m[k]) == Failure(EntryTexts(dateOutput, m).error) &&
                        (forall j :: 0 <= j < k ==> EntryText(dateOutput, m[j]).Success?)
  {
    var init := m[..|m| - 1];
    assert forall k :: 0 <= k < |m| - 1 ==> init[k] == m[k];
    if EntryTexts(dateOutput, init).Failure? {
      EntryTextsFail(dateOutput, init);
    } else {
      EntryTextsSucceed(dateOutput, init);
    }
  }

  /** The text before the first entry. */
  function Opening(optionsName: string): string
  {
    "var " + optionsName + " = {"
  }

  /** The text after the last entry. */
  const Closing: string := "};\n"

  /**
   * What `draw` returns for the processed options `m`: the opening, the entry
   * texts separated by ", ", and the closing; or the first error.
   */
  function Emit(dateOutput: DateOutput, optionsName: string, m: seq<(string, Value)>): Result<string, DrawError>
  {
    match EntryTexts(dateOutput, m)
    case Failure(e) => Failure(e)
    case Success(texts) => Success(Opening(optionsName) + Join(texts, ", ") + Closing)
  }

  /** Once an entry fails, the rest of the map does not matter. */
  lemma {:induction false} FailureIsFinal(dateOutput: DateOutput, m: seq<(string, Value)>, i: nat)
    requires i <= |m|
    requires EntryTexts(dateOutput, m[..i]).Failure?
    ensures EntryTexts(dateOutput, m) == EntryTexts(dateOutput, m[..i])
  {
    if i < |m| {
      var init := m[..|m| - 1];
      assert init[..i] == m[..i];
      FailureIsFinal(dateOutput, init, i);
    } else {
      assert m[..i] == m;
    }
  }

  /** The entry at index i fails after all before it succeeded: emission fails with its error. */
  lemma FailureAt(dateOutput: DateOutput, m: seq<(string, Value)>, i: nat)
    requires i < |m|
    requires EntryTexts(dateOutput, m[..i]).Success?
    requires EntryText(dateOutput, m[i]).Failure?
    ensures EntryTexts(dateOutput, m) == Failure(EntryText(dateOutput, m[i]).error)
  {
    assert m[..i + 1][..i] == m[..i];
    FailureIsFinal(dateOutput, m, i + 1);
  }

  /** One turn of the emission loop adds the text of entry i to the texts so far. */
  lemma EntryTextsStep(dateOutput: DateOutput, m: seq<(string, Value)>, i: nat, texts: seq<string>, valueText: string)
    requires i < |m|
    requires EntryTexts(dateOutput, m[..i]) == Success(texts)
    requires ValueText(dateOutput, m[i].0, m[i].1) == Success(valueText)
    ensures EntryTexts(dateOutput, m[..i + 1]) == Success(texts + [EntryHead(m[i].0) + valueText])
  {
    assert m[..i + 1] == m[..i] + [m[i]];
    EntryTextsSnoc(dateOutput, m[..i], m[i], texts, EntryHead(m[i].0) + valueText);
  }

  /**
   * One turn of the emission loop on the text: after entry i, the text holds the
   * entries up to i joined by ", ", and a separator follows exactly when i is
   * not the last index.
   */
  lemma EmitStep(optionsName: string, m: OrderedMap, i: nat, texts: seq<string>, text: string)
    requires i < |m| && |texts| == i
    ensures Opening(optionsName) + Join(texts, ", ") + (if 0 < i < |m| then ", " else "") +
            text + (if m[i].0 != m[|m| - 1].0 then ", " else "") ==
            Opening(optionsName) + Join(texts + [text], ", ") + (if 0 < i + 1 < |m| then ", " else "")
  {
    LastKeyAt(m, i);
    JoinStep(Opening(optionsName), texts, text, ", ", |m|);
  }

  /** Keys are distinct, so only the last entry carries the last key. */
  lemma LastKeyAt(m: OrderedMap, i: nat)
    requires i < |m|
    ensures m[i].0 != m[|m| - 1].0 <==> i + 1 < |m|
  {
    var keys := KeysOf(m);
    assert keys[i] == m[i].0 && keys[|m| - 1] == m[|m| - 1].0;
  }

  /** With no options left, the loop emits nothing between the braces. */
  lemma EmitEmpty(dateOutput: DateOutput, optionsName: string)
    ensures Emit(dateOutput, optionsName, []) == Success("var " + optionsName + " = {};\n")
  {
    assert " = {" + "};\n" == " = {};\n";
    assert Opening(optionsName) + Join([], ", ") + Closing == "var " + optionsName + (" = {" + "};\n");
  }

  class OptionsOutput {
    /** The date collaborator given at construction. */
    const dateOutput: DateOutput

    constructor (dateOutput: DateOutput)
      ensures this.dateOutput == dateOutput
    {
      this.dateOutput := dateOutput;
    }

    /**
     * The text of one option value: the date collaborator for a date, json_encode
     * with JSON_FORCE_OBJECT under `series`, plain json_encode otherwise.
     */
    method WriteValue(optionKey: string, optionValue: Value) returns (res: Result<string, DrawError>)
      ensures res == ValueText(dateOutput, optionKey, optionValue)
    {
      if IsDate(optionValue) {
        var date := dateOutput(DatePayload(optionValue));
        if date.None? {
          return Failure(MalformedDate(optionKey));
        }
        res := Success(date.value);
      } else if optionKey == "series" {
        res := Success(Encode(optionValue, true));
      } else {
        res := Success(Encode(optionValue, false));
      }
    }

    /**
     * Emits `var <optionsName> = {...};` followed by a newline for options that
     * have already been pruned and renamed. The last key is read from these
     * processed options, and every entry whose key is not that last key is
     * followed by ", ".
     */
    method Draw(options: OrderedMap, optionsName: string) returns (r: Result<string, DrawError>)
      ensures r == Emit(dateOutput, optionsName, options)
      ensures |options| == 0 ==> r == Success("var " + optionsName + " = {};\n")
    {
      var js := "var " + optionsName + " = {";
      var lastKey: Option<string> := None;
      if |options| > 0 {
        lastKey := Some(options[|options| - 1].0);
      }
      var i := 0;
      ghost var texts: seq<string> := [];
      while i < |options|
        invariant 0 <= i <= |options|
        invariant EntryTexts(dateOutput, options[..i]) == Success(texts)
        invariant js == Opening(optionsName) + Join(texts, ", ") + (if 0 < i < |options| then ", " else "")
      {
        var optionKey, optionValue := options[i].0, options[i].1;
        ghost var before := js;
        js := js + EntryHead(optionKey);
        var value := WriteValue(optionKey, optionValue);
        if value.Failure? {
          FailureAt(dateOutput, options, i);
          return Failure(value.error);
        }
        var valueText := value.value;
        js := js + valueText;
        ghost var text := EntryHead(optionKey) + valueText;
        assert js == before + text;
        EntryTextsStep(dateOutput, options, i, texts, valueText);
        EmitStep(optionsName, options, i, texts, text);
        if Some(optionKey) != lastKey {
          js := js + ", ";
        }
        texts := texts + [text];
        i := i + 1;
      }
      assert options[..i] == options;
      js := js + "};\n";
      assert js == Opening(optionsName) + Join(texts, ", ") + Closing;
      if |options| == 0 {
        EmitEmpty(dateOutput, optionsName);
      }
      r := Success(js);
    }
  }
}

/** What the emitted statement looks like, proved about the specification Emit. */
module JavascriptOutputProperties {
  import opened Wrappers
  import opened Strings
  import opened PhpValues
  import opened JsonEncode
  import opened JavascriptOutput

  /**
   * The statement always opens with `var <name> = {`, the name spliced in
   * as given, and closes with `};` and a newline; n entries carry exactly
   * n - 1 separators of two characters each.
   */
  lemma EmitFrame(dateOutput: DateOutput, optionsName: string, m: seq<(string, Value)>)
    requires Emit(dateOutput, optionsName, m).Success?
    ensures var r := Emit(dateOutput, optionsName, m).value;
      |Opening(optionsName)| + |Closing| <= |r| &&
      r[..|Opening(optionsName)|] == "var " + optionsName + " = {" &&
      r[|r| - |Closing|..] == "};\n"
    ensures |m| > 0 ==>
      |Emit(dateOutput, optionsName, m).value| ==
        |Opening(optionsName)| + TotalLength(EntryTexts(dateOutput, m).value) + (|m| - 1) * 2 + |Closing|
  {
    var texts := EntryTexts(dateOutput, m).value;
    var r := Emit(dateOutput, optionsName, m).value;
    assert r == Opening(optionsName) + Join(texts, ", ") + Closing;
    if |m| > 0 {
      JoinLength(texts, ", ");
    }
  }

  /** The opening spells `var `, the name as given, and ` = {`. */
  lemma OpeningLayout(optionsName: string)
    ensures var o := Opening(optionsName);
      |o| == |optionsName| + 8 && o[..4] == "var " && o[4..|optionsName| + 4] == optionsName &&
      o[|optionsName| + 4..] == " = {"
  {
  }

  /**
   * Drawing fails exactly when some option holds a date the collaborator
   * rejects, and the error names the key of such an option.
   */
  lemma EmitFails(dateOutput: DateOutput, optionsName: string, m: seq<(string, Value)>)
    ensures Emit(dateOutput, optionsName, m).Failure? <==>
      exists k :: 0 <= k < |m| && IsDate(m[k].1) && dateOutput(DatePayload(m[k].1)).None?
    ensures Emit(dateOutput, optionsName, m).Failure? ==>
      exists k :: 0 <= k < |m| && Emit(dateOutput, optionsName, m).error == MalformedDate(m[k].0) &&
        IsDate(m[k].1) && dateOutput(DatePayload(m[k].1)).None?
  {
    EntryTextsSucceed(dateOutput, m);
    if EntryTexts(dateOutput, m).Failure? {
      EntryTextsFail(dateOutput, m);
    }
  }

  /** Where entry k of the processed options starts in the emitted statement. */
  function EntryStart(dateOutput: DateOutput, optionsName: string, m: seq<(string, Value)>, k: nat): nat
    requires EntryTexts(dateOutput, m).Success? && k <= |m|
  {
    |Opening(optionsName)| + Offset(EntryTexts(dateOutput, m).value, ", ", k)
  }

  /** Text k of the entries sits at EntryStart. */
  lemma EmitTextAt(dateOutput: DateOutput, optionsName: string, m: seq<(string, Value)>, k: nat)
    requires Emit(dateOutput, optionsName, m).Success?
    requires k < |m|
    ensures var r := Emit(dateOutput, optionsName, m).value;
      var o := EntryStart(dateOutput, optionsName, m, k);
      var text := EntryTexts(dateOutput, m).value[k];
      o + |text| <= |r| && r[o..o + |text|] == text
  {
    var texts := EntryTexts(dateOutput, m).value;
    var body := Join(texts, ", ");
    JoinPieceAt(texts, ", ", k);
    var ob := Offset(texts, ", ", k);
    SliceOfMiddle(Opening(optionsName), body, Closing, ob, ob + |texts[k]|);
  }

  /**
   * Entry k of the processed options sits at EntryStart: its key between
   * double quotes and a colon, then the text of its value.
   */
  lemma EmitEntryAt(dateOutput: DateOutput, optionsName: string, m: seq<(string, Value)>, k: nat)
    requires Emit(dateOutput, optionsName, m).Success?
    requires k < |m|
    ensures var r := Emit(dateOutput, optionsName, m).value;
      var o := EntryStart(dateOutput, optionsName, m, k);
      var value := ValueText(dateOutput, m[k].0, m[k].1);
      value.Success? &&
      var text := "\"" + m[k].0 + "\":" + value.value;
      o + |text| <= |r| && r[o..o + |text|] == text
  {
    EmitTextAt(dateOutput, optionsName, m, k);
    EntryTextAt(dateOutput, m, k);
  }

  /** After every entry but the last comes ", " and then the next entry. */
  lemma EmitSeparator(dateOutput: DateOutput, optionsName: string, m: seq<(string, Value)>, k: nat)
    requires Emit(dateOutput, optionsName, m).Success?
    requires k + 1 < |m|
    ensures var r := Emit(dateOutput, optionsName, m).value;
      var end := EntryStart(dateOutput, optionsName, m, k) + |EntryTexts(dateOutput, m).value[k]|;
      end + 2 == EntryStart(dateOutput, optionsName, m, k + 1) <= |r| && r[end..end + 2] == ", "
  {
    var texts := EntryTexts(dateOutput, m).value;
    var body := Join(texts, ", ");
    JoinSeparatorAfter(texts, ", ", k);
    SliceOfMiddle(Opening(optionsName), body, Closing, Offset(texts, ", ", k) + |texts[k]|, Offset(texts, ", ", k + 1));
  }

  /**
   * The closing `};` follows the last entry directly: the separator rule looks
   * at the last key of the processed options, so no separator trails.
   */
  lemma EmitLastEntry(dateOutput: DateOutput, optionsName: string, m: seq<(string, Value)>)
    requires Emit(dateOutput, optionsName, m).Success?
    requires |m| > 0
    ensures var r := Emit(dateOutput, optionsName, m).value;
      var end := EntryStart(dateOutput, optionsName, m, |m| - 1) + |EntryTexts(dateOutput, m).value[|m| - 1]|;
      end <= |r| && r[end..] == "};\n"
  {
    var texts := EntryTexts(dateOutput, m).value;
    var body := Join(texts, ", ");
    JoinEnd(texts, ", ");
    SuffixOfConcat(Opening(optionsName), body, Closing);
  }

  /** A value with a non-null `date` entry goes to the date collaborator alone, whatever its key, `series` included. */
  lemma DateWinsOverSeries(dateOutput: DateOutput, key: string, v: Value)
    requires IsDate(v)
    ensures BranchOf(key, v) == DateBranch
    ensures dateOutput(DatePayload(v)).Some? ==>
      ValueText(dateOutput, key, v) == Success(dateOutput(DatePayload(v)).value) &&
      ValueText(dateOutput, "series", v) == ValueText(dateOutput, key, v)
  {
  }

  /** A non-date value under `series` is written with JSON_FORCE_OBJECT: no JSON array at any depth. */
  lemma SeriesHasNoArrays(dateOutput: DateOutput, v: Value)
    requires !IsDate(v)
    ensures BranchOf("series", v) == SeriesBranch
    ensures exists j :: ValueText(dateOutput, "series", v) == Success(Serialize(j)) && NoArrays(j)
  {
    ForceObjectHasNoArrays(v);
    assert ValueText(dateOutput, "series", v) == Success(Serialize(ToJson(v, true)));
  }

  /** Any other non-date value is plain json_encode: the key plays no part in the text. */
  lemma GenericIgnoresKey(dateOutput: DateOutput, key1: string, key2: string, v: Value)
    requires !IsDate(v) && key1 != "series" && key2 != "series"
    ensures BranchOf(key1, v) == GenericBranch
    ensures ValueText(dateOutput, key1, v) == ValueText(dateOutput, key2, v) == Success(Encode(v, false))
  {
  }

  /**
   * A list is never a date. Outside `series` it is written as a JSON array;
   * under `series` it is written as an object.
   */
  lemma ListBrackets(dateOutput: DateOutput, key: string, es: seq<(Key, Value)>)
    requires IsList(es)
    ensures !IsDate(Arr(es))
    ensures ValueText(dateOutput, key, Arr(es)).Success?
    ensures ValueText(dateOutput, key, Arr(es)).value[0] == if key == "series" then '{' else '['
  {
    ArrayDelimiters(es, key == "series");
  }
}
