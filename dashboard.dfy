/**
 * Start-up of the dashboard controller: at `DOMContentLoaded` the stored
 * or preferred theme is applied (no chart exists yet), then
 * `initializeDashboard` shows `home-content` and creates both charts in
 * the theme now on the document.
 */
module Dashboard {
  import opened Wrappers
  import opened Router
  import opened Charts
  import opened Theme

  /** The start-up sequence, with the system preference and the chart inputs as parameters. */
  method LoadDashboard(router: PageRouter, theme: ThemeManager, prefersDark: bool,
                       dauCanvas: Option<Canvas>, pieCanvas: Option<Canvas>, chartLoaded: bool,
                       parse: string -> Option<JsonValue>)
    requires theme.dauChart.None? && theme.pieChart.None?
    modifies router.links, router.sections, theme
    ensures router.links[..] == ActivateLinks(old(router.links[..]), HomeSection)
    ensures router.sections[..] == ActivateSections(old(router.sections[..]), HomeSection)
    ensures theme.dataTheme == Some(ThemeAtLoad(StoredTheme(old(theme.storage)), prefersDark))
    ensures theme.checked == CheckedAtLoad(StoredTheme(old(theme.storage)), prefersDark)
    ensures theme.storage == old(theme.storage)
    ensures theme.dauChart == CreateDauChart(dauCanvas, chartLoaded, theme.dataTheme, theme.css(theme.dataTheme), parse)
    ensures theme.pieChart == CreateContentPieChart(pieCanvas, chartLoaded, theme.dataTheme, theme.css(theme.dataTheme), parse)
    ensures theme.ThemeAgrees() && theme.ChartsMatchTheme()
  {
    theme.LoadTheme(prefersDark);
    router.SetActivePage(HomeSection);
    theme.InitializeCharts(dauCanvas, pieCanvas, chartLoaded, parse);
  }

  /**
   * With nothing stored and a dark system preference, the bar chart is
   * created with the dark grid; with a stored `light` it gets the light
   * grid whatever the preference.
   */
  lemma LoadedChartFollowsPreference(canvas: Canvas, css: CssVariables, parse: string -> Option<JsonValue>)
    requires Truthy(canvas.labelsAttr) && Truthy(canvas.valuesAttr)
    requires parse(canvas.labelsAttr.value).Some? && parse(canvas.valuesAttr.value).Some?
    ensures CreateDauChart(Some(canvas), true, Some(ThemeAtLoad(None, true)), css, parse).value.gridColor == Some(DarkGrid)
    ensures forall prefersDark: bool ::
              CreateDauChart(Some(canvas), true, Some(ThemeAtLoad(Some(Light), prefersDark)), css, parse).value.gridColor
              == Some(LightGrid)
  {
  }
}
