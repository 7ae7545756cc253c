/** A worked emission: the processed options of a small combo chart. */
module Scenarios {
  import opened Wrappers
  import opened Strings
  import opened PhpValues
  import opened JsonEncode
  import opened JavascriptOutput

  /** `['color' => 'red']`, the override for one series. */
  const Red: Value := Arr([(StrKey("color"), Str("red"))])

  /** The series override map `[0 => ['color' => 'red']]`, a PHP list of one entry. */
  const RedSeries: Value := Arr([(IntKey(0), Red)])

  /** The JSON shape of `Red`: an object, flag or no flag. */
  const RedJson: Json := JObject([("color", JString("red"))])

  /** The processed options of the chart: a title, the series overrides and a `false` flag. */
  const SalesOptions: seq<(string, Value)> := [("title", Str("Sales")), ("series", RedSeries), ("isStacked", Bool(false))]

  /** The emitted text of each entry of `SalesOptions`. */
  const TitleText: string := EntryHead("title") + Serialize(JString("Sales"))
  const SeriesText: string := EntryHead("series") + Serialize(JObject([("0", RedJson)]))
  const StackedText: string := EntryHead("isStacked") + "false"

  /** The series map is a list: an object keyed "0" when objects are forced, an array otherwise. */
  lemma RedSeriesJson()
    ensures ToJson(Red, true) == ToJson(Red, false) == RedJson
    ensures ToJson(RedSeries, true) == JObject([("0", RedJson)])
    ensures ToJson(RedSeries, false) == JArray([RedJson])
  {
    assert Red.entries[0].0 != IntKey(0);
    var es := Red.entries;
    assert seq(1, k requires 0 <= k < 1 => (KeyText(es[k].0), ToJson(es[k].1, true))) == RedJson.members;
    assert seq(1, k requires 0 <= k < 1 => (KeyText(es[k].0), ToJson(es[k].1, false))) == RedJson.members;
    var ss := RedSeries.entries;
    assert KeyText(IntKey(0)) == "0";
    assert seq(1, k requires 0 <= k < 1 => (KeyText(ss[k].0), ToJson(ss[k].1, true))) == [("0", RedJson)];
    assert seq(1, k requires 0 <= k < 1 => ToJson(ss[k].1, false)) == [RedJson];
  }

  /** The title entry takes the generic branch. */
  lemma TitleEntry(dateOutput: DateOutput)
    ensures EntryText(dateOutput, SalesOptions[0]) == Success(TitleText)
  {
  }

  /** The series entry is written as an object keyed by position. */
  lemma SeriesEntry(dateOutput: DateOutput)
    ensures EntryText(dateOutput, SalesOptions[1]) == Success(SeriesText)
  {
    RedSeriesJson();
  }

  /** The `isStacked` entry takes the generic branch. */
  lemma StackedEntry(dateOutput: DateOutput)
    ensures EntryText(dateOutput, SalesOptions[2]) == Success(StackedText)
  {
  }

  /** Each entry of the chart takes its branch: generic, series, generic. */
  lemma SalesEntries(dateOutput: DateOutput)
    ensures EntryText(dateOutput, SalesOptions[0]) == Success(TitleText)
    ensures EntryText(dateOutput, SalesOptions[1]) == Success(SeriesText)
    ensures EntryText(dateOutput, SalesOptions[2]) == Success(StackedText)
  {
    TitleEntry(dateOutput);
    SeriesEntry(dateOutput);
    StackedEntry(dateOutput);
  }

  /** Three entries that can be emitted give their three texts in order. */
  lemma EntryTextsThree(dateOutput: DateOutput, e0: (string, Value), e1: (string, Value), e2: (string, Value),
                        t0: string, t1: string, t2: string)
    requires EntryText(dateOutput, e0) == Success(t0)
    requires EntryText(dateOutput, e1) == Success(t1)
    requires EntryText(dateOutput, e2) == Success(t2)
    ensures EntryTexts(dateOutput, [e0, e1, e2]) == Success([t0, t1, t2])
  {
    EntryTextsSnoc(dateOutput, [], e0, [], t0);
    assert [] + [e0] == [e0] && [] + [t0] == [t0];
    EntryTextsSnoc(dateOutput, [e0], e1, [t0], t1);
    assert [e0] + [e1] == [e0, e1] && [t0] + [t1] == [t0, t1];
    EntryTextsSnoc(dateOutput, [e0, e1], e2, [t0, t1], t2);
    assert [e0, e1] + [e2] == [e0, e1, e2] && [t0, t1] + [t2] == [t0, t1, t2];
  }

  /** The entries of the chart emit in order. */
  lemma SalesTexts(dateOutput: DateOutput)
    ensures EntryTexts(dateOutput, SalesOptions) == Success([TitleText, SeriesText, StackedText])
  {
    var m := SalesOptions;
    SalesEntries(dateOutput);
    EntryTextsThree(dateOutput, m[0], m[1], m[2], TitleText, SeriesText, StackedText);
    assert [m[0], m[1], m[2]] == m;
  }

  /**
   * Options left after pruning (an all-null legend is gone) and renaming: the
   * series list becomes an object keyed "0", and `false` survives.
   */
  lemma SalesChart(dateOutput: DateOutput)
    ensures Emit(dateOutput, "chart1", SalesOptions) ==
      Success("var chart1 = {" + (TitleText + ", " + SeriesText + ", " + StackedText) + "};\n")
  {
    SalesTexts(dateOutput);
    EmitThree(dateOutput, "chart1", SalesOptions, TitleText, SeriesText, StackedText);
    ChartOpening();
  }

  /** The opening of the `chart1` declaration, spelled out. */
  lemma ChartOpening()
    ensures "var " + "chart1" + " = {" == "var chart1 = {"
  {
  }

  /** A map whose three entries emit t0, t1 and t2 gives the declaration holding them in order. */
  lemma EmitThree(dateOutput: DateOutput, name: string, m: seq<(string, Value)>, t0: string, t1: string, t2: string)
    requires EntryTexts(dateOutput, m) == Success([t0, t1, t2])
    ensures Emit(dateOutput, name, m) == Success("var " + name + " = {" + (t0 + ", " + t1 + ", " + t2) + "};\n")
  {
    JoinThree(t0, t1, t2, ", ");
  }

  /** Three pieces joined by a separator. */
  lemma JoinThree(a: string, b: string, c: string, sep: string)
    ensures Join([a, b, c], sep) == a + sep + b + sep + c
  {
    JoinSnoc([a, b], c, sep);
    JoinSnoc([a], b, sep);
    assert [a, b] + [c] == [a, b, c];
    assert [a] + [b] == [a, b];
  }

  /** The same list under any other key stays a JSON array. */
  lemma ListOutsideSeries(dateOutput: DateOutput)
    ensures ValueText(dateOutput, "colors", RedSeries) == Success(Serialize(JArray([RedJson])))
  {
    RedSeriesJson();
  }
}
