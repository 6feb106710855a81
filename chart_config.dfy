/**
 * The part of a Chart.js configuration that the site's theme code reads or
 * writes: the `scales` of the options, each with optional `grid` and `ticks`
 * sub-objects, and `plugins.legend.labels`. Every object keeps its other
 * properties in `rest`, a stand-in for whatever else the configuration holds.
 */
module ChartConfig {
  import opened Wrappers

  /** Properties a model does not look into, keyed by name. */
  type Fields = map<string, string>

  /** A colour as the site writes it: a CSS string or a generated HSL colour. */
  datatype Colour = Css(text: string) | Hsl(hue: real, saturation: nat, lightness: nat)

  /** An object with a `color` property (a scale's `grid` or `ticks`, a legend's `labels`). */
  datatype Styled = Styled(color: Option<string>, rest: Fields)

  datatype Scale = Scale(grid: Option<Styled>, ticks: Option<Styled>, rest: Fields)

  datatype Legend = Legend(labels: Option<Styled>, rest: Fields)

  datatype Plugins = Plugins(legend: Option<Legend>, rest: Fields)

  datatype Options = Options(scales: Option<map<string, Scale>>, plugins: Option<Plugins>, rest: Fields)

  datatype Dataset = Dataset(values: seq<real>, backgroundColor: Option<seq<Colour>>, rest: Fields)

  datatype ChartData = ChartData(datasets: Option<seq<Dataset>>, rest: Fields)

  /** A live chart: its configuration, how often it was redrawn, whether it was destroyed. */
  class Chart {
    const chartType: string
    var data: ChartData
    var options: Options
    var redraws: nat
    var destroyed: bool

    /** `new Chart(canvas, { type, data, options })`. */
    constructor (chartType: string, data: ChartData, options: Options)
      ensures this.chartType == chartType && this.data == data && this.options == options
      ensures redraws == 0 && !destroyed
    {
      this.chartType := chartType;
      this.data := data;
      this.options := options;
      redraws := 0;
      destroyed := false;
    }
  }
}
