/**
 * The option object of a combo chart: seven nested option objects created by
 * the constructor, twelve optional scalar or array options, plain getters and
 * fluent setters that return the object itself.
 */
module ComboChart {
  import opened Wrappers
  import opened PhpValues

  /** The nested option classes a combo chart holds. */
  datatype NestedKind =
    | AdvancedAnimation
    | Annotations
    | Bar
    | Candlestick
    | Crosshair
    | AdvancedHAxis
    | AdvancedLegend
    | VAxis

  /**
   * A nested option object. Its own fields are summarised by the ones that
   * hold a value, in declaration order: a freshly built object has every
   * field null, so nothing is populated.
   */
  class NestedOptions {
    const kind: NestedKind
    var populated: OrderedMap

    constructor (kind: NestedKind)
      ensures this.kind == kind && populated == []
    {
      this.kind := kind;
      populated := [];
    }
  }

  /** Every field of a ComboChartOptions at one moment, in declaration order. */
  datatype Fields = Fields(
    animation: NestedOptions,
    annotations: NestedOptions,
    areaOpacity: Option<real>,
    bar: NestedOptions,
    candlestick: NestedOptions,
    crosshair: NestedOptions,
    curveType: Option<string>,
    dataOpacity: Option<real>,
    focusTarget: Option<string>,
    hAxis: NestedOptions,
    interpolateNulls: Option<bool>,
    isStacked: Option<bool>,
    legend: NestedOptions,
    orientation: Option<string>,
    reverseCategories: Option<bool>,
    selectionMode: Option<string>,
    seriesType: Option<string>,
    trendlines: Option<Value>,
    vAxes: Option<seq<NestedOptions>>)

  class ComboChartOptions {
    var animation: NestedOptions
    var annotations: NestedOptions
    var areaOpacity: Option<real>
    var bar: NestedOptions
    var candlestick: NestedOptions
    var crosshair: NestedOptions
    var curveType: Option<string>
    var dataOpacity: Option<real>
    var focusTarget: Option<string>
    var hAxis: NestedOptions
    var interpolateNulls: Option<bool>
    var isStacked: Option<bool>
    var legend: NestedOptions
    var orientation: Option<string>
    var reverseCategories: Option<bool>
    var selectionMode: Option<string>
    var seriesType: Option<string>
    var trendlines: Option<Value>
    var vAxes: Option<seq<NestedOptions>>

    /** The current value of every field. */
    function State(): Fields
      reads this
    {
      Fields(animation, annotations, areaOpacity, bar, candlestick, crosshair, curveType, dataOpacity,
        focusTarget, hAxis, interpolateNulls, isStacked, legend, orientation, reverseCategories,
        selectionMode, seriesType, trendlines, vAxes)
    }

    /** Each nested option object is of the class its field is declared with. */
    predicate Valid()
      reads this
    {
      animation.kind == AdvancedAnimation && annotations.kind == Annotations && bar.kind == Bar &&
      candlestick.kind == Candlestick && crosshair.kind == Crosshair && hAxis.kind == AdvancedHAxis &&
      legend.kind == AdvancedLegend
    }

    /** No option is set yet and every nested option object is a default one. */
    predicate IsDefault()
      reads this, animation, annotations, bar, candlestick, crosshair, hAxis, legend
    {
      animation.populated == [] && annotations.populated == [] && bar.populated == [] &&
      candlestick.populated == [] && crosshair.populated == [] && hAxis.populated == [] &&
      legend.populated == [] &&
      areaOpacity == None && curveType == None && dataOpacity == None && focusTarget == None &&
      interpolateNulls == None && isStacked == None && orientation == None &&
      reverseCategories == None && selectionMode == None && seriesType == None &&
      trendlines == None && vAxes == None
    }

    /**
     * Creates the seven nested option objects, each new and of its own
     * class, and leaves every other option unset.
     */
    constructor ()
      ensures Valid() && IsDefault()
      ensures fresh(animation) && fresh(annotations) && fresh(bar) && fresh(candlestick) &&
              fresh(crosshair) && fresh(hAxis) && fresh(legend)
      ensures |{animation, annotations, bar, candlestick, crosshair, hAxis, legend}| == 7
    {
      animation := new NestedOptions(AdvancedAnimation);
      annotations := new NestedOptions(Annotations);
      bar := new NestedOptions(Bar);
      candlestick := new NestedOptions(Candlestick);
      crosshair := new NestedOptions(Crosshair);
      hAxis := new NestedOptions(AdvancedHAxis);
      legend := new NestedOptions(AdvancedLegend);
      areaOpacity, curveType, dataOpacity, focusTarget := None, None, None, None;
      interpolateNulls, isStacked, orientation, reverseCategories := None, None, None, None;
      selectionMode, seriesType, trendlines, vAxes := None, None, None, None;
    }

    method GetAnimation() returns (animation: NestedOptions)
      requires Valid()
      ensures animation == this.animation && animation.kind == AdvancedAnimation
    {
      return this.animation;
    }

    method GetAnnotations() returns (annotations: NestedOptions)
      requires Valid()
      ensures annotations == this.annotations && annotations.kind == Annotations
    {
      return this.annotations;
    }

    method GetBar() returns (bar: NestedOptions)
      requires Valid()
      ensures bar == this.bar && bar.kind == Bar
    {
      return this.bar;
    }

    method GetCandlestick() returns (candlestick: NestedOptions)
      requires Valid()
      ensures candlestick == this.candlestick && candlestick.kind == Candlestick
    {
      return this.candlestick;
    }

    method GetCrosshair() returns (crosshair: NestedOptions)
      requires Valid()
      ensures crosshair == this.crosshair && crosshair.kind == Crosshair
    {
      return this.crosshair;
    }

    method GetHAxis() returns (hAxis: NestedOptions)
      requires Valid()
      ensures hAxis == this.hAxis && hAxis.kind == AdvancedHAxis
    {
      return this.hAxis;
    }

    method GetLegend() returns (legend: NestedOptions)
      requires Valid()
      ensures legend == this.legend && legend.kind == AdvancedLegend
    {
      return this.legend;
    }

    method SetCurveType(curveType: string) returns (self: ComboChartOptions)
      modifies this
      ensures self == this
      ensures State() == old(State()).(curveType := Some(curveType))
    {
      this.curveType := Some(curveType);
      return this;
    }

    method SetDataOpacity(dataOpacity: real) returns (self: ComboChartOptions)
      modifies this
      ensures self == this
      ensures State() == old(State()).(dataOpacity := Some(dataOpacity))
    {
      this.dataOpacity := Some(dataOpacity);
      return this;
    }

    method SetFocusTarget(focusTarget: string) returns (self: ComboChartOptions)
      modifies this
      ensures self == this
      ensures State() == old(State()).(focusTarget := Some(focusTarget))
    {
      this.focusTarget := Some(focusTarget);
      return this;
    }

    method SetInterpolateNulls(interpolateNulls: bool) returns (self: ComboChartOptions)
      modifies this
      ensures self == this
      ensures State() == old(State()).(interpolateNulls := Some(interpolateNulls))
    {
      this.interpolateNulls := Some(interpolateNulls);
      return this;
    }

    method SetOrientation(orientation: string) returns (self: ComboChartOptions)
      modifies this
      ensures self == this
      ensures State() == old(State()).(orientation := Some(orientation))
    {
      this.orientation := Some(orientation);
      return this;
    }

    method SetReverseCategories(reverseCategories: bool) returns (self: ComboChartOptions)
      modifies this
      ensures self == this
      ensures State() == old(State()).(reverseCategories := Some(reverseCategories))
    {
      this.reverseCategories := Some(reverseCategories);
      return this;
    }

    method SetSelectionMode(selectionMode: string) returns (self: ComboChartOptions)
      modifies this
      ensures self == this
      ensures State() == old(State()).(selectionMode := Some(selectionMode))
    {
      this.selectionMode := Some(selectionMode);
      return this;
    }

    method SetTrendlines(trendlines: Value) returns (self: ComboChartOptions)
      modifies this
      ensures self == this
      ensures State() == old(State()).(trendlines := Some(trendlines))
    {
      this.trendlines := Some(trendlines);
      return this;
    }

    method SetVAxes(vAxes: seq<NestedOptions>) returns (self: ComboChartOptions)
      modifies this
      ensures self == this
      ensures State() == old(State()).(vAxes := Some(vAxes))
    {
      this.vAxes := Some(vAxes);
      return this;
    }

    method SetAreaOpacity(areaOpacity: real) returns (self: ComboChartOptions)
      modifies this
      ensures self == this
      ensures State() == old(State()).(areaOpacity := Some(areaOpacity))
    {
      this.areaOpacity := Some(areaOpacity);
      return this;
    }

    method SetIsStacked(isStacked: bool) returns (self: ComboChartOptions)
      modifies this
      ensures self == this
      ensures State() == old(State()).(isStacked := Some(isStacked))
    {
      this.isStacked := Some(isStacked);
      return this;
    }

    method SetSeriesType(seriesType: string) returns (self: ComboChartOptions)
      modifies this
      ensures self == this
      ensures State() == old(State()).(seriesType := Some(seriesType))
    {
      this.seriesType := Some(seriesType);
      return this;
    }
  }

  /** A chain of setter calls acts on the receiver, exactly as the same calls made one by one. */
  method ChainSetters(options: ComboChartOptions, curveType: string, isStacked: bool, seriesType: string)
    modifies options
    ensures options.State() ==
      old(options.State()).(curveType := Some(curveType), isStacked := Some(isStacked), seriesType := Some(seriesType))
  {
    var chained := options.SetCurveType(curveType);
    chained := chained.SetIsStacked(isStacked);
    chained := chained.SetSeriesType(seriesType);
  }

  /** Setting an option twice keeps the second value only. */
  method SetTwice(options: ComboChartOptions, first: bool, second: bool)
    modifies options
    ensures options.State() == old(options.State()).(isStacked := Some(second))
  {
    var self := options.SetIsStacked(first);
    self := options.SetIsStacked(second);
  }

  /**
   * A getter hands out the stored nested object itself, so what is changed
   * through it is what the chart options hold afterwards.
   */
  method ConfigureLegend(options: ComboChartOptions, populated: OrderedMap)
    requires options.Valid()
    modifies options.legend
    ensures options.legend.populated == populated
    ensures options.State() == old(options.State())
  {
    var legend := options.GetLegend();
    legend.populated := populated;
  }
}
