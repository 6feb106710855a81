/**
 * The `Charts` module of app.js: a registry of the live charts, the
 * library-wide defaults, and `updateAllTheme`, which walks every registered
 * chart and overwrites the colour of each existing `ticks`, `grid` and
 * legend `labels` object in place, then redraws the chart.
 */
module ChartTheme {
  import opened Wrappers
  import opened ChartConfig

  /** The two colour tokens: text and grid lines. */
  datatype Palette = Palette(text: string, grid: string)

  function ColorsFor(isDark: bool): Palette {
    if isDark then Palette("#e2e8f0", "#334155") else Palette("#374151", "#e5e7eb")
  }

  /** The two themes have different tokens, so a chart's colours tell the theme it was last given. */
  lemma PalettesDiffer()
    ensures ColorsFor(true).text != ColorsFor(false).text
    ensures ColorsFor(true).grid != ColorsFor(false).grid
  {
  }

  /** `Chart.defaults`: the font family, the default text colour and the default border colour. */
  datatype Defaults = Defaults(fontFamily: string, color: string, borderColor: string)

  function DefaultsFor(isDark: bool): Defaults {
    Defaults("'Inter', sans-serif", ColorsFor(isDark).text, ColorsFor(isDark).grid)
  }

  /** Sets `color` on an object that exists; an absent object stays absent. */
  function Recolour(s: Option<Styled>, color: string): Option<Styled> {
    if s.Some? then Some(s.value.(color := Some(color))) else None
  }

  /** One pass of the `for (scaleId in scales)` body. */
  function RethemeScale(s: Scale, p: Palette): Scale {
    s.(ticks := Recolour(s.ticks, p.text), grid := Recolour(s.grid, p.grid))
  }

  /** `plugins?.legend?.labels` recoloured when the whole path exists. */
  function RethemeLegend(plugins: Option<Plugins>, p: Palette): Option<Plugins> {
    if plugins.Some? && plugins.value.legend.Some? && plugins.value.legend.value.labels.Some? then
      var legend := plugins.value.legend.value;
      Some(plugins.value.(legend := Some(legend.(labels := Recolour(legend.labels, p.text)))))
    else plugins
  }

  /** `s` became `t` by having only its colour (if it had the object at all) set to `color`. */
  ghost predicate RecolouredTo(s: Option<Styled>, t: Option<Styled>, color: string) {
    && t.Some? == s.Some?
    && (s.Some? ==> t.value.color == Some(color) && t.value.rest == s.value.rest)
  }

  /** The options of one chart after `updateAllTheme` with palette `p`. */
  function RethemeOptions(o: Options, p: Palette): (r: Options)
    ensures r.rest == o.rest
    ensures r.scales.Some? == o.scales.Some?
    ensures o.scales.Some? ==> r.scales.value.Keys == o.scales.value.Keys
    ensures o.scales.Some? ==> forall id :: id in o.scales.value ==>
      && r.scales.value[id].rest == o.scales.value[id].rest
      && RecolouredTo(o.scales.value[id].ticks, r.scales.value[id].ticks, p.text)
      && RecolouredTo(o.scales.value[id].grid, r.scales.value[id].grid, p.grid)
    ensures r.plugins.Some? == o.plugins.Some?
    ensures o.plugins.Some? ==>
      (r.plugins.value.rest == o.plugins.value.rest && r.plugins.value.legend.Some? == o.plugins.value.legend.Some?)
    ensures o.plugins.Some? && o.plugins.value.legend.Some? ==>
      && r.plugins.value.legend.value.rest == o.plugins.value.legend.value.rest
      && RecolouredTo(o.plugins.value.legend.value.labels, r.plugins.value.legend.value.labels, p.text)
  {
    var scales := if o.scales.Some? then Some(map id | id in o.scales.value :: RethemeScale(o.scales.value[id], p)) else None;
    o.(scales := scales, plugins := RethemeLegend(o.plugins, p))
  }

  /** Re-theming overwrites: only the last palette applied shows. */
  lemma RethemeLastWins(o: Options, p: Palette, q: Palette)
    ensures RethemeOptions(RethemeOptions(o, p), q) == RethemeOptions(o, q)
  {
    var once, twice := RethemeOptions(o, q), RethemeOptions(RethemeOptions(o, p), q);
    if o.scales.Some? {
      assert twice.scales.value.Keys == once.scales.value.Keys;
      forall id | id in once.scales.value
        ensures twice.scales.value[id] == once.scales.value[id]
      {
      }
      assert twice.scales.value == once.scales.value;
    }
  }

  /** A chart without axes (a doughnut, say) only has its legend recoloured. */
  lemma AxisFreeChartOnlyLegend(o: Options, p: Palette)
    requires o.scales.None? || o.scales == Some(map[])
    ensures RethemeOptions(o, p) == o.(plugins := RethemeLegend(o.plugins, p))
  {
  }

  /**
   * The chart registry `Charts._instances` with the library defaults.
   * A chart is registered once, when it is created, so entries are distinct.
   */
  class Registry {
    var instances: seq<Chart>
    var defaults: Defaults

    ghost predicate Valid()
      reads this
    {
      forall i, j :: 0 <= i < j < |instances| ==> instances[i] != instances[j]
    }

    constructor (defaults: Defaults)
      ensures Valid() && instances == [] && this.defaults == defaults
    {
      instances := [];
      this.defaults := defaults;
    }

    /** `applyDefaults()`: the defaults any chart created afterwards starts from. */
    method ApplyDefaults(isDark: bool)
      modifies this`defaults
      ensures defaults == DefaultsFor(isDark)
    {
      var colors := ColorsFor(isDark);
      defaults := Defaults("'Inter', sans-serif", colors.text, colors.grid);
    }

    /**
     * What `lazyInit`'s observer does the first time the canvas becomes
     * visible: create the chart and append it to the registry.
     */
    method LazyInit(chartType: string, data: ChartData, options: Options) returns (chart: Chart)
      requires Valid()
      modifies this`instances
      ensures Valid() && fresh(chart) && instances == old(instances) + [chart]
      ensures chart.chartType == chartType && chart.data == data && chart.options == options
      ensures chart.redraws == 0 && !chart.destroyed
    {
      chart := new Chart(chartType, data, options);
      instances := instances + [chart];
    }

    /** The body of the `forEach` in `updateAllTheme`: recolour one chart in place and redraw it. */
    static method RethemeChart(chart: Chart, p: Palette)
      modifies chart
      ensures chart.options == RethemeOptions(old(chart.options), p)
      ensures chart.redraws == old(chart.redraws) + 1
      ensures chart.data == old(chart.data) && chart.destroyed == old(chart.destroyed)
    {
      if chart.options.scales.Some? {
        var scales := chart.options.scales.value;
        var remaining := scales.Keys;
        while remaining != {}
          invariant remaining <= scales.Keys
          invariant chart.options.scales.Some? && chart.options.scales.value.Keys == scales.Keys
          invariant forall id :: id in scales ==>
            chart.options.scales.value[id] == (if id in remaining then scales[id] else RethemeScale(scales[id], p))
          invariant chart.options.plugins == old(chart.options.plugins)
          invariant chart.options.rest == old(chart.options.rest)
          invariant chart.redraws == old(chart.redraws)
          invariant chart.data == old(chart.data) && chart.destroyed == old(chart.destroyed)
          decreases remaining
        {
          var id :| id in remaining;
          var scale := chart.options.scales.value[id];
          if scale.ticks.Some? {
            scale := scale.(ticks := Some(scale.ticks.value.(color := Some(p.text))));
          }
          if scale.grid.Some? {
            scale := scale.(grid := Some(scale.grid.value.(color := Some(p.grid))));
          }
          chart.options := chart.options.(scales := Some(chart.options.scales.value[id := scale]));
          remaining := remaining - {id};
        }
        assert chart.options.scales.value == map id | id in scales :: RethemeScale(scales[id], p);
      }
      var plugins := chart.options.plugins;
      if plugins.Some? && plugins.value.legend.Some? && plugins.value.legend.value.labels.Some? {
        var legend := plugins.value.legend.value;
        var labels := legend.labels.value.(color := Some(p.text));
        chart.options := chart.options.(plugins := Some(plugins.value.(legend := Some(legend.(labels := Some(labels))))));
      }
      chart.redraws := chart.redraws + 1;
    }

    /** `updateAllTheme()`: new defaults, then every registered chart recoloured and redrawn. */
    method UpdateAllTheme(isDark: bool)
      requires Valid()
      modifies this`defaults, instances
      ensures Valid() && instances == old(instances) && defaults == DefaultsFor(isDark)
      ensures forall i :: 0 <= i < |instances| ==>
        && instances[i].options == RethemeOptions(old(instances[i].options), ColorsFor(isDark))
        && instances[i].redraws == old(instances[i].redraws) + 1
        && instances[i].data == old(instances[i].data)
        && instances[i].destroyed == old(instances[i].destroyed)
    {
      ApplyDefaults(isDark);
      var colors := ColorsFor(isDark);
      var i := 0;
      while i < |instances|
        invariant 0 <= i <= |instances|
        invariant forall j :: 0 <= j < i ==>
          && instances[j].options == RethemeOptions(old(instances[j].options), colors)
          && instances[j].redraws == old(instances[j].redraws) + 1
          && instances[j].data == old(instances[j].data)
          && instances[j].destroyed == old(instances[j].destroyed)
        invariant forall j :: i <= j < |instances| ==>
          && instances[j].options == old(instances[j].options)
          && instances[j].redraws == old(instances[j].redraws)
          && instances[j].data == old(instances[j].data)
          && instances[j].destroyed == old(instances[j].destroyed)
        modifies instances
      {
        RethemeChart(instances[i], colors);
        i := i + 1;
      }
    }
  }
}
