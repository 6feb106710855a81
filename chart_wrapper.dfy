/**
 * The `ChartWrapper` component: on every effect run it reads the theme,
 * destroys the previous chart, optionally gives the first dataset of a copy
 * of the data a generated colour per value, and creates a new chart whose
 * options are rebuilt with the theme's grid and text colours on every scale
 * and on the legend labels.
 */
module ChartWrapper {
  import opened Wrappers
  import opened ChartConfig

  function GridColor(isDark: bool): string {
    if isDark then "rgba(255, 255, 255, 0.1)" else "rgba(0, 0, 0, 0.1)"
  }

  function TextColor(isDark: bool): string {
    if isDark then "#e2e8f0" else "#1e293b"
  }

  /** The two themes give different tokens, so a rebuilt chart shows which theme it was built for. */
  lemma TokensDifferByTheme()
    ensures GridColor(true) != GridColor(false) && TextColor(true) != TextColor(false)
  {
  }

  /** `{ ...s, color }`: an absent object spreads as `{}`. */
  function WithColour(s: Option<Styled>, color: string): Styled {
    Styled(Some(color), if s.Some? then s.value.rest else map[])
  }

  /** One step of the `reduce` over the scale ids. */
  function ThemedScale(s: Scale, isDark: bool): Scale {
    Scale(Some(WithColour(s.grid, GridColor(isDark))), Some(WithColour(s.ticks, TextColor(isDark))), s.rest)
  }

  /** `{ ...options.plugins, legend: { ...legend, labels: { ...labels, color } } }`. */
  function ThemedPlugins(p: Option<Plugins>, isDark: bool): Plugins {
    var legend := if p.Some? && p.value.legend.Some? then p.value.legend.value else Legend(None, map[]);
    Plugins(Some(Legend(Some(WithColour(legend.labels, TextColor(isDark))), legend.rest)),
            if p.Some? then p.value.rest else map[])
  }

  /** The options passed to `new Chart`: `options` with `scales` and `plugins` rebuilt for the theme. */
  function ThemedOptions(o: Options, isDark: bool): (r: Options)
    ensures r.rest == o.rest
    ensures r.scales.Some? && r.scales.value.Keys == (if o.scales.Some? then o.scales.value.Keys else {})
    ensures forall id :: id in r.scales.value ==>
      var s := o.scales.value[id];
      var t := r.scales.value[id];
      && t.rest == s.rest
      && t.grid.Some? && t.grid.value.color == Some(GridColor(isDark))
      && t.grid.value.rest == (if s.grid.Some? then s.grid.value.rest else map[])
      && t.ticks.Some? && t.ticks.value.color == Some(TextColor(isDark))
      && t.ticks.value.rest == (if s.ticks.Some? then s.ticks.value.rest else map[])
    ensures r.plugins.Some? && r.plugins.value.legend.Some? && r.plugins.value.legend.value.labels.Some?
    ensures r.plugins.value.legend.value.labels.value.color == Some(TextColor(isDark))
    ensures o.plugins.Some? ==> r.plugins.value.rest == o.plugins.value.rest
    ensures o.plugins.Some? && o.plugins.value.legend.Some? ==>
      var legend := o.plugins.value.legend.value;
      && r.plugins.value.legend.value.rest == legend.rest
      && (legend.labels.Some? ==> r.plugins.value.legend.value.labels.value.rest == legend.labels.value.rest)
    // An absent `plugins`, `legend` or `labels` spreads as `{}`: the object built in its place holds nothing else.
    ensures o.plugins.None? ==> r.plugins.value.rest == map[]
    ensures o.plugins.None? || o.plugins.value.legend.None? ==> r.plugins.value.legend.value.rest == map[]
    ensures o.plugins.None? || o.plugins.value.legend.None? || o.plugins.value.legend.value.labels.None? ==>
      r.plugins.value.legend.value.labels.value.rest == map[]
  {
    var scales := if o.scales.Some? then o.scales.value else map[];
    o.(scales := Some(map id | id in scales :: ThemedScale(scales[id], isDark)),
       plugins := Some(ThemedPlugins(o.plugins, isDark)))
  }

  /** Rebuilding is idempotent per theme, and the later theme wins. */
  lemma ThemedOptionsLastWins(o: Options, first: bool, second: bool)
    ensures ThemedOptions(ThemedOptions(o, first), second) == ThemedOptions(o, second)
  {
    var once, twice := ThemedOptions(o, second), ThemedOptions(ThemedOptions(o, first), second);
    assert twice.scales.value.Keys == once.scales.value.Keys;
    forall id | id in once.scales.value
      ensures twice.scales.value[id] == once.scales.value[id]
    {
    }
    assert twice.scales.value == once.scales.value;
  }

  /** Smallest of a non-empty list (`Math.min(...values)`). */
  function Min(values: seq<real>): (m: real)
    requires values != []
    ensures forall i :: 0 <= i < |values| ==> m <= values[i]
    ensures exists i :: 0 <= i < |values| && m == values[i]
    decreases |values|
  {
    if |values| == 1 then values[0]
    else
      var m := Min(values[1..]);
      assert forall i :: 1 <= i < |values| ==> values[1..][i - 1] == values[i];
      if values[0] <= m then values[0] else m
  }

  /** Largest of a non-empty list (`Math.max(...values)`). */
  function Max(values: seq<real>): (m: real)
    requires values != []
    ensures forall i :: 0 <= i < |values| ==> values[i] <= m
    ensures exists i :: 0 <= i < |values| && m == values[i]
    decreases |values|
  {
    if |values| == 1 then values[0]
    else
      var m := Max(values[1..]);
      assert forall i :: 1 <= i < |values| ==> values[1..][i - 1] == values[i];
      if values[0] >= m then values[0] else m
  }

  /** The hue of one value: its position between the minimum and the maximum, scaled to `[0, 120]`. */
  function Hue(value: real, min: real, max: real, lowerIsBetter: bool): real {
    var ratio := if max - min == 0.0 then 1.0 else (value - min) / (max - min);
    (if lowerIsBetter then 1.0 - ratio else ratio) * 120.0
  }

  lemma MulMonotone(a: real, b: real, d: real)
    requires d > 0.0 && a < b
    ensures a * d < b * d
  {
    var x := b - a;
    assert x * d > 0.0;
    assert b * d - a * d == x * d;
  }

  /** The ratio of a value between the bounds lies in `[0, 1]` and grows with the value. */
  lemma RatioBounds(value: real, other: real, min: real, max: real)
    requires min <= value <= max && min < max && value <= other
    ensures 0.0 <= (value - min) / (max - min) <= 1.0
    ensures (value - min) / (max - min) <= (other - min) / (max - min)
  {
    var d := max - min;
    var ratio, ratio' := (value - min) / d, (other - min) / d;
    assert ratio * d == value - min && ratio' * d == other - min;
    if ratio < 0.0 {
      MulMonotone(ratio, 0.0, d);
    }
    if ratio > 1.0 {
      MulMonotone(1.0, ratio, d);
    }
    if ratio > ratio' {
      MulMonotone(ratio', ratio, d);
    }
  }

  lemma HueInRange(value: real, min: real, max: real, lowerIsBetter: bool)
    requires min <= value <= max
    ensures 0.0 <= Hue(value, min, max, lowerIsBetter) <= 120.0
  {
    if max - min != 0.0 {
      RatioBounds(value, value, min, max);
    }
  }

  /** A larger value never gets a smaller hue, or never a larger one when lower is better. */
  lemma HueFollowsValue(value: real, other: real, min: real, max: real, lowerIsBetter: bool)
    requires min <= value <= other <= max
    ensures lowerIsBetter ==> Hue(other, min, max, lowerIsBetter) <= Hue(value, min, max, lowerIsBetter)
    ensures !lowerIsBetter ==> Hue(value, min, max, lowerIsBetter) <= Hue(other, min, max, lowerIsBetter)
  {
    if max - min != 0.0 {
      RatioBounds(value, other, min, max);
    }
  }

  /** `generateChartColors`: one HSL colour per value, red (0) for the worst and green (120) for the best. */
  function GenerateChartColors(values: seq<real>, lowerIsBetter: bool): (r: seq<Colour>)
    ensures |r| == |values|
    ensures forall i :: 0 <= i < |r| ==>
      r[i].Hsl? && r[i].saturation == 80 && r[i].lightness == 50 && 0.0 <= r[i].hue <= 120.0
  {
    if values == [] then []
    else
      var min, max := Min(values), Max(values);
      assert forall i :: 0 <= i < |values| ==> 0.0 <= Hue(values[i], min, max, lowerIsBetter) <= 120.0 by {
        forall i | 0 <= i < |values| {
          HueInRange(values[i], min, max, lowerIsBetter);
        }
      }
      seq(|values|, i requires 0 <= i < |values| => Hsl(Hue(values[i], min, max, lowerIsBetter), 80, 50))
  }

  /** Larger values get greener colours, or redder ones when lower is better. */
  lemma ColoursFollowValues(values: seq<real>, lowerIsBetter: bool, i: nat, j: nat)
    requires i < |values| && j < |values| && values[i] <= values[j]
    ensures var r := GenerateChartColors(values, lowerIsBetter);
      if lowerIsBetter then r[j].hue <= r[i].hue else r[i].hue <= r[j].hue
  {
    var min, max := Min(values), Max(values);
    HueFollowsValue(values[i], values[j], min, max, lowerIsBetter);
  }

  /** When every value is equal, all bars are green, or all red when lower is better. */
  lemma EqualValuesShareOneColour(values: seq<real>, lowerIsBetter: bool)
    requires values != [] && forall i :: 0 <= i < |values| ==> values[i] == values[0]
    ensures forall i :: 0 <= i < |values| ==>
      GenerateChartColors(values, lowerIsBetter)[i].hue == (if lowerIsBetter then 0.0 else 120.0)
  {
    var min, max := Min(values), Max(values);
    assert min == values[0] && max == values[0];
  }

  /** The `colorize` prop. */
  datatype Colorize = Colorize(lowerIsBetter: bool)

  /**
   * The data handed to the chart: with `colorize` and a first dataset, a
   * copy whose first dataset has one generated colour per value; otherwise
   * the prop itself.
   */
  function ColorizedData(data: ChartData, colorize: Option<Colorize>): (r: ChartData)
    ensures r.rest == data.rest
    ensures colorize.None? || data.datasets.None? || data.datasets.value == [] ==> r == data
    ensures colorize.Some? && data.datasets.Some? && data.datasets.value != [] ==>
      var before, after := data.datasets.value, r.datasets;
      && after.Some? && |after.value| == |before|
      && after.value[1..] == before[1..]
      && after.value[0].values == before[0].values
      && after.value[0].rest == before[0].rest
      && after.value[0].backgroundColor.Some?
      && |after.value[0].backgroundColor.value| == |before[0].values|
  {
    if colorize.Some? && data.datasets.Some? && data.datasets.value != [] then
      var first := data.datasets.value[0];
      var coloured := first.(backgroundColor := Some(GenerateChartColors(first.values, colorize.value.lowerIsBetter)));
      data.(datasets := Some([coloured] + data.datasets.value[1..]))
    else data
  }

  /** The component's `chartRef`. */
  class Wrapper {
    var current: Chart?

    constructor ()
      ensures current == null
    {
      current := null;
    }

    /**
     * The effect: nothing without a canvas; otherwise destroy the previous
     * chart and create one from the coloured data and the themed options.
     */
    method RunEffect(canvasFound: bool, chartType: string, data: ChartData, options: Options,
                     colorize: Option<Colorize>, isDark: bool)
      modifies this, current
      ensures !canvasFound ==> current == old(current)
      ensures !canvasFound ==> unchanged(this) && (old(current) != null ==> unchanged(old(current)))
      ensures canvasFound ==> current != null && fresh(current) && !current.destroyed
      ensures canvasFound ==> current.chartType == chartType && current.data == ColorizedData(data, colorize)
      ensures canvasFound ==> current.options == ThemedOptions(options, isDark)
      ensures canvasFound && old(current) != null ==> old(current).destroyed
    {
      if !canvasFound {
        return;
      }
      if current != null {
        current.destroyed := true;
      }
      var finalData := ColorizedData(data, colorize);
      current := new Chart(chartType, finalData, ThemedOptions(options, isDark));
    }

    /** The effect's cleanup: destroy the chart and clear the reference. */
    method Cleanup()
      modifies this, current
      ensures current == null
      ensures old(current) != null ==> old(current).destroyed
    {
      if current != null {
        current.destroyed := true;
        current := null;
      }
    }
  }
}
