/**
 * The two dashboard charts, reduced to what the scripts decide about
 * them: which chart is built from the canvas attributes, and which colour
 * fields a theme change rewrites.  A chart instance is a record of its
 * type, its parsed data and its colour options; Chart.js itself, the
 * canvas context and the redraw are not part of this model.
 */
module Charts {
  import opened Wrappers

  const DarkGrid := "rgba(255, 255, 255, 0.1)"
  const LightGrid := "rgba(0, 0, 0, 0.08)"
  /** The bar border of the daily-active-users chart, fixed in both scripts. */
  const DauBorder := "rgba(63, 167, 106, 1)"
  /** The doughnut border of the top-level script, fixed regardless of the theme. */
  const FixedPieBorder := "rgba(255, 255, 255, 0.9)"

  /**
   * The values of the CSS custom properties `--card-header-color`,
   * `--heading-color` and `--bg-color` as `getComputedStyle` reports them
   * for the document in its current theme, each already passed through
   * `trim()` (the reading and the trimming are one given lookup here).
   */
  datatype CssVariables = CssVariables(cardHeaderColor: string, headingColor: string, bgColor: string)

  /** The colours `getChartColors` hands to the charts. */
  datatype ChartColors = ChartColors(gridColor: string, ticksColor: string, labelColor: string, pieBorderColor: string)

  /** The value of a `JSON.parse`; only whether it is an array matters to the scripts. */
  datatype JsonValue = JsonArray(items: seq<string>) | JsonScalar(text: string)

  /**
   * A chart instance: its `config.type`, its labels and data, and the
   * colour options the scripts write: the axes' `grid.color`, their
   * `ticks.color`, the legend label colour, the dataset border and the
   * axes' `grid.borderColor`.  None is an option left to the Chart.js
   * default.
   */
  datatype Chart = Chart(
    kind: string,
    labels: JsonValue,
    values: JsonValue,
    gridColor: Option<string>,
    ticksColor: Option<string>,
    legendColor: Option<string>,
    borderColor: Option<string>,
    axisBorderColor: Option<string>)

  /** The `data-labels` and `data-values` attributes of a chart canvas (None when absent). */
  datatype Canvas = Canvas(labelsAttr: Option<string>, valuesAttr: Option<string>)

  /** The charts with axes: their grid and ticks follow the theme. */
  predicate IsTrendKind(kind: string) {
    kind == "bar" || kind == "line"
  }

  /** The round charts: their border follows the theme. */
  predicate IsRoundKind(kind: string) {
    kind == "doughnut" || kind == "pie"
  }

  /** An attribute value is truthy when present and not empty. */
  predicate Truthy(attr: Option<string>) {
    attr.Some? && attr.value != ""
  }

  /** The theme a chart is created in: `data-theme`, or `light` when the attribute is missing or empty. */
  function ThemeOrLight(dataTheme: Option<string>): (theme: string)
    ensures Truthy(dataTheme) ==> theme == dataTheme.value
    ensures !Truthy(dataTheme) ==> theme == "light"
  {
    if Truthy(dataTheme) then dataTheme.value else "light"
  }

  /**
   * `getChartColors(theme)`: the grid colour is the dark constant exactly
   * for the theme `dark` and the light one for every other theme; the
   * other colours are the CSS variables.
   */
  function GetChartColors(theme: string, css: CssVariables): (c: ChartColors)
    ensures c.gridColor == DarkGrid <==> theme == "dark"
    ensures c.gridColor == LightGrid <==> theme != "dark"
    ensures c.ticksColor == css.cardHeaderColor
    ensures c.labelColor == css.headingColor
    ensures c.pieBorderColor == css.bgColor
  {
    ChartColors(
      if theme == "dark" then DarkGrid else LightGrid,
      css.cardHeaderColor,
      css.headingColor,
      css.bgColor)
  }

  /** With the same CSS values, two themes give the same colours exactly when both or neither is `dark`. */
  lemma ColoursDependOnlyOnDarkness(a: string, b: string, css: CssVariables)
    ensures GetChartColors(a, css) == GetChartColors(b, css) <==> ((a == "dark") == (b == "dark"))
  {
    if (a == "dark") != (b == "dark") {
      assert GetChartColors(a, css).gridColor != GetChartColors(b, css).gridColor;
    }
  }

  /**
   * A chart shows the colours `c` in the options a theme change rewrites:
   * axes for bar/line, border and legend for doughnut/pie.  The axes'
   * border colour is not among them.
   */
  predicate StyledFor(chart: Chart, c: ChartColors) {
    && (IsTrendKind(chart.kind) ==> chart.gridColor == Some(c.gridColor) && chart.ticksColor == Some(c.ticksColor))
    && (IsRoundKind(chart.kind) ==> chart.borderColor == Some(c.pieBorderColor) && chart.legendColor == Some(c.labelColor))
  }

  /** `updateChartTheme(chart, theme)`, without the redraw. */
  function UpdateChartTheme(chart: Chart, theme: string, css: CssVariables): (r: Chart)
    ensures StyledFor(r, GetChartColors(theme, css))
    ensures r.legendColor == Some(GetChartColors(theme, css).labelColor)
    ensures r.kind == chart.kind && r.labels == chart.labels && r.values == chart.values
    ensures !IsTrendKind(chart.kind) ==> r.gridColor == chart.gridColor && r.ticksColor == chart.ticksColor
    ensures !IsRoundKind(chart.kind) ==> r.borderColor == chart.borderColor
    ensures r.axisBorderColor == chart.axisBorderColor
  {
    var colors := GetChartColors(theme, css);
    var axes := if IsTrendKind(chart.kind)
      then chart.(gridColor := Some(colors.gridColor), ticksColor := Some(colors.ticksColor))
      else chart;
    var legend := axes.(legendColor := Some(colors.labelColor));
    if IsRoundKind(chart.kind) then legend.(borderColor := Some(colors.pieBorderColor)) else legend
  }

  /** Restyling twice for the same theme is the same as restyling once. */
  lemma UpdateChartThemeIdempotent(chart: Chart, theme: string, css: CssVariables)
    ensures UpdateChartTheme(UpdateChartTheme(chart, theme, css), theme, css) == UpdateChartTheme(chart, theme, css)
  {
  }

  /** Restyling for a new theme forgets the old one: only the last theme counts. */
  lemma UpdateChartThemeLastWins(chart: Chart, t1: string, t2: string, css1: CssVariables, css2: CssVariables)
    ensures UpdateChartTheme(UpdateChartTheme(chart, t1, css1), t2, css2) == UpdateChartTheme(chart, t2, css2)
  {
  }

  /**
   * `createDauChart` of the dashboard controller: no chart without the
   * canvas, without Chart.js, or with a missing or empty attribute; a
   * parse failure is caught and also gives no chart.  Otherwise a bar
   * chart whose axes follow the theme of the document.
   */
  function CreateDauChart(canvas: Option<Canvas>, chartLoaded: bool, dataTheme: Option<string>,
                          css: CssVariables, parse: string -> Option<JsonValue>): (r: Option<Chart>)
    ensures r.Some? <==>
              && canvas.Some? && chartLoaded
              && Truthy(canvas.value.labelsAttr) && Truthy(canvas.value.valuesAttr)
              && parse(canvas.value.labelsAttr.value).Some? && parse(canvas.value.valuesAttr.value).Some?
    ensures r.Some? ==>
              && r.value.kind == "bar"
              && r.value.labels == parse(canvas.value.labelsAttr.value).value
              && r.value.values == parse(canvas.value.valuesAttr.value).value
              && StyledFor(r.value, GetChartColors(ThemeOrLight(dataTheme), css))
              && r.value.borderColor == Some(DauBorder) && r.value.legendColor.None?
              && r.value.axisBorderColor == Some(GetChartColors(ThemeOrLight(dataTheme), css).gridColor)
  {
    if canvas.None? || !chartLoaded || !Truthy(canvas.value.labelsAttr) || !Truthy(canvas.value.valuesAttr) then None
    else
      var labels := parse(canvas.value.labelsAttr.value);
      var data := parse(canvas.value.valuesAttr.value);
      if labels.None? || data.None? then None
      else
        var colors := GetChartColors(ThemeOrLight(dataTheme), css);
        Some(Chart("bar", labels.value, data.value, Some(colors.gridColor), Some(colors.ticksColor), None, Some(DauBorder),
                   Some(colors.gridColor)))
  }

  /** `createContentPieChart`: the same guards; a doughnut whose border and legend follow the theme. */
  function CreateContentPieChart(canvas: Option<Canvas>, chartLoaded: bool, dataTheme: Option<string>,
                                 css: CssVariables, parse: string -> Option<JsonValue>): (r: Option<Chart>)
    ensures r.Some? <==>
              && canvas.Some? && chartLoaded
              && Truthy(canvas.value.labelsAttr) && Truthy(canvas.value.valuesAttr)
              && parse(canvas.value.labelsAttr.value).Some? && parse(canvas.value.valuesAttr.value).Some?
    ensures r.Some? ==>
              && r.value.kind == "doughnut"
              && r.value.labels == parse(canvas.value.labelsAttr.value).value
              && r.value.values == parse(canvas.value.valuesAttr.value).value
              && StyledFor(r.value, GetChartColors(ThemeOrLight(dataTheme), css))
              && r.value.gridColor.None? && r.value.ticksColor.None? && r.value.axisBorderColor.None?
  {
    if canvas.None? || !chartLoaded || !Truthy(canvas.value.labelsAttr) || !Truthy(canvas.value.valuesAttr) then None
    else
      var labels := parse(canvas.value.labelsAttr.value);
      var data := parse(canvas.value.valuesAttr.value);
      if labels.None? || data.None? then None
      else
        var colors := GetChartColors(ThemeOrLight(dataTheme), css);
        Some(Chart("doughnut", labels.value, data.value, None, None, Some(colors.labelColor), Some(colors.pieBorderColor), None))
  }

  /**
   * A freshly created chart already shows its theme: restyling it for the
   * theme it was created in changes nothing but the bar chart's legend
   * colour, which its creation leaves to the default.
   */
  lemma CreatedChartsAreStyled(canvas: Option<Canvas>, chartLoaded: bool, dataTheme: Option<string>,
                               css: CssVariables, parse: string -> Option<JsonValue>)
    ensures var pie := CreateContentPieChart(canvas, chartLoaded, dataTheme, css, parse);
            pie.Some? ==> UpdateChartTheme(pie.value, ThemeOrLight(dataTheme), css) == pie.value
    ensures var dau := CreateDauChart(canvas, chartLoaded, dataTheme, css, parse);
            dau.Some? ==> UpdateChartTheme(dau.value, ThemeOrLight(dataTheme), css)
                          == dau.value.(legendColor := Some(css.headingColor))
  {
  }

  /**
   * The bar chart's axis border keeps the colour of the theme it was
   * created in: after a switch between dark and light it no longer
   * matches the grid colour the switch wrote.
   */
  lemma AxisBorderGoesStale(canvas: Option<Canvas>, chartLoaded: bool, dataTheme: Option<string>,
                            css: CssVariables, parse: string -> Option<JsonValue>, theme: string, css2: CssVariables)
    requires CreateDauChart(canvas, chartLoaded, dataTheme, css, parse).Some?
    requires (ThemeOrLight(dataTheme) == "dark") != (theme == "dark")
    ensures var dau := CreateDauChart(canvas, chartLoaded, dataTheme, css, parse).value;
            var r := UpdateChartTheme(dau, theme, css2);
            && r.axisBorderColor == dau.axisBorderColor
            && r.gridColor == Some(GetChartColors(theme, css2).gridColor)
            && r.axisBorderColor != r.gridColor
  {
    var dau := CreateDauChart(canvas, chartLoaded, dataTheme, css, parse).value;
    ColoursDependOnlyOnDarkness(ThemeOrLight(dataTheme), theme, css);
    assert GetChartColors(ThemeOrLight(dataTheme), css).gridColor != GetChartColors(theme, css2).gridColor;
  }

  /** How the top-level script's chart code ends: no chart, a chart, or an exception nobody catches. */
  datatype Construction = NotBuilt | Built(chart: Chart) | Uncaught

  predicate IsArray(v: Option<JsonValue>) {
    v.Some? && v.value.JsonArray?
  }

  /**
   * The bar chart of the top-level script: the same guards; parse errors
   * are caught and leave the values undefined, and the chart is built
   * only when both values are arrays.  Its colours are fixed.
   */
  function BuildBarChart(canvas: Option<Canvas>, chartLoaded: bool, parse: string -> Option<JsonValue>): (r: Construction)
    ensures r != Uncaught
    ensures r.Built? <==>
              && canvas.Some? && chartLoaded
              && Truthy(canvas.value.labelsAttr) && Truthy(canvas.value.valuesAttr)
              && IsArray(parse(canvas.value.labelsAttr.value)) && IsArray(parse(canvas.value.valuesAttr.value))
    ensures r.Built? ==> r.chart.kind == "bar" && r.chart.labels.JsonArray? && r.chart.values.JsonArray?
                         && r.chart.borderColor == Some(DauBorder) && r.chart.gridColor.None?
    ensures r.Built? ==> r.chart.labels == parse(canvas.value.labelsAttr.value).value
                         && r.chart.values == parse(canvas.value.valuesAttr.value).value
  {
    if !chartLoaded || canvas.None? || !Truthy(canvas.value.labelsAttr) || !Truthy(canvas.value.valuesAttr) then NotBuilt
    else
      var labels := parse(canvas.value.labelsAttr.value);
      // a failed first parse skips the second; both are then undefined or only `labels` is set
      var data := if labels.None? then None else parse(canvas.value.valuesAttr.value);
      if IsArray(labels) && IsArray(data) then
        Built(Chart("bar", labels.value, data.value, None, None, None, Some(DauBorder), None))
      else NotBuilt
  }

  /**
   * The doughnut of the top-level script: the same guards, but the parse
   * is not wrapped, so a malformed attribute throws out of the script.
   */
  function BuildPieChart(canvas: Option<Canvas>, chartLoaded: bool, parse: string -> Option<JsonValue>): (r: Construction)
    ensures r == Uncaught <==>
              && canvas.Some? && chartLoaded
              && Truthy(canvas.value.labelsAttr) && Truthy(canvas.value.valuesAttr)
              && (parse(canvas.value.labelsAttr.value).None? || parse(canvas.value.valuesAttr.value).None?)
    ensures r.Built? <==>
              && canvas.Some? && chartLoaded
              && Truthy(canvas.value.labelsAttr) && Truthy(canvas.value.valuesAttr)
              && parse(canvas.value.labelsAttr.value).Some? && parse(canvas.value.valuesAttr.value).Some?
    ensures r.Built? ==> r.chart.kind == "doughnut" && r.chart.borderColor == Some(FixedPieBorder)
                         && r.chart.labels == parse(canvas.value.labelsAttr.value).value
                         && r.chart.values == parse(canvas.value.valuesAttr.value).value
  {
    if !chartLoaded || canvas.None? || !Truthy(canvas.value.labelsAttr) || !Truthy(canvas.value.valuesAttr) then NotBuilt
    else
      var labels := parse(canvas.value.labelsAttr.value);
      if labels.None? then Uncaught
      else
        var data := parse(canvas.value.valuesAttr.value);
        if data.None? then Uncaught
        else Built(Chart("doughnut", labels.value, data.value, None, None, None, Some(FixedPieBorder), None))
  }

  /**
   * The two scripts differ on a malformed attribute: the controller
   * catches the error and builds no chart, the top-level doughnut code
   * throws.
   */
  lemma MalformedAttributeDiffers(canvas: Canvas, dataTheme: Option<string>, css: CssVariables,
                                  parse: string -> Option<JsonValue>)
    requires Truthy(canvas.labelsAttr) && Truthy(canvas.valuesAttr)
    requires parse(canvas.labelsAttr.value).None?
    ensures CreateContentPieChart(Some(canvas), true, dataTheme, css, parse).None?
    ensures BuildPieChart(Some(canvas), true, parse) == Uncaught
    ensures BuildBarChart(Some(canvas), true, parse) == NotBuilt
  {
  }
}
