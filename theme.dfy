/**
 * The light/dark theme.  The theme lives in the `data-theme` attribute of
 * the document, is persisted under the key `theme` of the browser's local
 * storage, and is mirrored by the `theme-toggle` checkbox.
 *
 * `ThemeManager` is the dashboard controller's version, which also
 * restyles the two chart instances it owns.  `SidebarTheme` is the
 * version of the sidebar scripts, which restores a stored theme only.
 */
module Theme {
  import opened Wrappers
  import opened Charts

  const ThemeKey := "theme"
  const Dark := "dark"
  const Light := "light"

  /** `localStorage.getItem('theme')`: None stands for `null`. */
  function StoredTheme(storage: map<string, string>): (r: Option<string>)
    ensures r.Some? <==> ThemeKey in storage
    ensures r.Some? ==> r.value == storage[ThemeKey]
  {
    if ThemeKey in storage then Some(storage[ThemeKey]) else None
  }

  /** The theme a checkbox state stands for. */
  function ThemeOfCheckbox(checked: bool): (t: string)
    ensures t == Dark <==> checked
    ensures t == Light <==> !checked
  {
    if checked then Dark else Light
  }

  /** The theme the controller applies at load: a stored value verbatim, else the system preference. */
  function ThemeAtLoad(stored: Option<string>, prefersDark: bool): (t: string)
    ensures Truthy(stored) ==> t == stored.value
    ensures !Truthy(stored) ==> t == ThemeOfCheckbox(prefersDark)
    ensures t != ""
  {
    if Truthy(stored) then stored.value else ThemeOfCheckbox(prefersDark)
  }

  /** The checkbox state the controller sets at load. */
  function CheckedAtLoad(stored: Option<string>, prefersDark: bool): (c: bool)
    ensures Truthy(stored) ==> (c <==> stored.value == Dark)
    ensures !Truthy(stored) ==> c == prefersDark
  {
    if Truthy(stored) then stored.value == Dark else prefersDark
  }

  /** The checkbox state and the theme agree after load, whatever was stored. */
  lemma LoadAgrees(stored: Option<string>, prefersDark: bool)
    ensures CheckedAtLoad(stored, prefersDark) <==> ThemeAtLoad(stored, prefersDark) == Dark
  {
  }

  /** A chart slot restyled for `theme`; an empty slot stays empty. */
  function Restyle(chart: Option<Chart>, theme: string, css: CssVariables): (r: Option<Chart>)
    ensures r.Some? <==> chart.Some?
    ensures r.Some? ==> StyledFor(r.value, GetChartColors(theme, css)) && r.value.kind == chart.value.kind
  {
    match chart
    case None => None
    case Some(c) => Some(UpdateChartTheme(c, theme, css))
  }

  class ThemeManager {
    var dataTheme: Option<string>
    var checked: bool
    var storage: map<string, string>
    var dauChart: Option<Chart>
    var pieChart: Option<Chart>
    /** The CSS custom properties as the style sheet defines them for each value of `data-theme`. */
    const css: Option<string> -> CssVariables

    constructor (storage0: map<string, string>, css: Option<string> -> CssVariables)
      ensures dataTheme.None? && !checked && storage == storage0
      ensures dauChart.None? && pieChart.None? && this.css == css
    {
      dataTheme := None;
      checked := false;
      storage := storage0;
      dauChart := None;
      pieChart := None;
      this.css := css;
    }

    /** The checkbox shows the dark theme exactly when it is checked. */
    ghost predicate ThemeAgrees()
      reads this
    {
      checked <==> dataTheme == Some(Dark)
    }

    /** Every existing chart shows the colours of the current theme. */
    ghost predicate ChartsMatchTheme()
      reads this
    {
      dataTheme.Some? ==>
        var colors := GetChartColors(dataTheme.value, css(dataTheme));
        && (dauChart.Some? ==> StyledFor(dauChart.value, colors))
        && (pieChart.Some? ==> StyledFor(pieChart.value, colors))
    }

    /** `applyTheme(theme)`: set the attribute, then restyle each chart that exists, and only those. */
    method ApplyTheme(theme: string)
      modifies this
      ensures dataTheme == Some(theme)
      ensures dauChart == Restyle(old(dauChart), theme, css(Some(theme)))
      ensures pieChart == Restyle(old(pieChart), theme, css(Some(theme)))
      ensures checked == old(checked) && storage == old(storage)
      ensures ChartsMatchTheme()
    {
      dataTheme := Some(theme);
      dauChart := Restyle(dauChart, theme, css(dataTheme));
      pieChart := Restyle(pieChart, theme, css(dataTheme));
    }

    /** `toggleTheme`: store and apply the theme the checkbox shows. */
    method ToggleTheme()
      modifies this
      ensures storage == old(storage)[ThemeKey := ThemeOfCheckbox(old(checked))]
      ensures dataTheme == Some(ThemeOfCheckbox(old(checked)))
      ensures dauChart == Restyle(old(dauChart), dataTheme.value, css(dataTheme))
      ensures pieChart == Restyle(old(pieChart), dataTheme.value, css(dataTheme))
      ensures checked == old(checked)
      ensures ThemeAgrees() && ChartsMatchTheme()
    {
      var newTheme := if checked then Dark else Light;
      storage := storage[ThemeKey := newTheme];
      ApplyTheme(newTheme);
    }

    /** The user sets the checkbox to `value`; its `change` listener runs `toggleTheme`. */
    method ChangeCheckbox(value: bool)
      modifies this
      ensures checked == value
      ensures storage == old(storage)[ThemeKey := ThemeOfCheckbox(value)]
      ensures dataTheme == Some(ThemeOfCheckbox(value)) && StoredTheme(storage) == Some(ThemeOfCheckbox(value))
      ensures dauChart == Restyle(old(dauChart), dataTheme.value, css(dataTheme))
      ensures pieChart == Restyle(old(pieChart), dataTheme.value, css(dataTheme))
      ensures ThemeAgrees() && ChartsMatchTheme()
    {
      checked := value;
      ToggleTheme();
    }

    /** The load-time theme: the stored value if truthy, else the system preference. */
    method LoadTheme(prefersDark: bool)
      modifies this
      ensures dataTheme == Some(ThemeAtLoad(StoredTheme(old(storage)), prefersDark))
      ensures checked == CheckedAtLoad(StoredTheme(old(storage)), prefersDark)
      ensures storage == old(storage)
      ensures dauChart == Restyle(old(dauChart), dataTheme.value, css(dataTheme))
      ensures pieChart == Restyle(old(pieChart), dataTheme.value, css(dataTheme))
      ensures ThemeAgrees() && ChartsMatchTheme()
    {
      var savedTheme := if ThemeKey in storage then Some(storage[ThemeKey]) else None;
      if savedTheme.Some? && savedTheme.value != "" {
        checked := savedTheme.value == Dark;
        ApplyTheme(savedTheme.value);
      } else {
        checked := prefersDark;
        ApplyTheme(if prefersDark then Dark else Light);
      }
    }

    /** The chart half of `initializeDashboard`: both instances are (re)created from their canvases. */
    method InitializeCharts(dauCanvas: Option<Canvas>, pieCanvas: Option<Canvas>, chartLoaded: bool,
                            parse: string -> Option<JsonValue>)
      modifies this
      ensures dauChart == CreateDauChart(dauCanvas, chartLoaded, dataTheme, css(dataTheme), parse)
      ensures pieChart == CreateContentPieChart(pieCanvas, chartLoaded, dataTheme, css(dataTheme), parse)
      ensures dataTheme == old(dataTheme) && checked == old(checked) && storage == old(storage)
      ensures dataTheme.Some? && dataTheme.value != "" ==> ChartsMatchTheme()
    {
      dauChart := CreateDauChart(dauCanvas, chartLoaded, dataTheme, css(dataTheme), parse);
      pieChart := CreateContentPieChart(pieCanvas, chartLoaded, dataTheme, css(dataTheme), parse);
    }
  }

  /**
   * The sidebar scripts' theme: with a truthy stored value the attribute
   * is set to it and the checkbox is checked if it is `dark` (never
   * unchecked); with nothing stored neither changes.
   */
  function LoadStoredOnly(stored: Option<string>, dataTheme: Option<string>, checked: bool): (r: (Option<string>, bool))
    ensures !Truthy(stored) ==> r == (dataTheme, checked)
    ensures Truthy(stored) ==> r.0 == stored
    ensures r.1 <==> checked || (Truthy(stored) && stored.value == Dark)
  {
    if Truthy(stored) then (stored, checked || stored.value == Dark) else (dataTheme, checked)
  }

  /**
   * The stored-only load keeps agreement between checkbox and theme
   * when the checkbox starts unchecked, but a checkbox that starts checked
   * (a browser restoring form state) stays checked over a stored `light`.
   */
  lemma LoadStoredOnlyAgreement(stored: Option<string>, dataTheme: Option<string>)
    requires Truthy(stored)
    ensures var r := LoadStoredOnly(stored, dataTheme, false); r.1 <==> r.0 == Some(Dark)
    ensures stored == Some(Light) ==> var r := LoadStoredOnly(stored, dataTheme, true); r.1 && r.0 != Some(Dark)
  {
  }

  /** The two load rules agree whenever a theme is stored and the checkbox starts unchecked. */
  lemma LoadRulesAgreeOnStoredTheme(stored: Option<string>, dataTheme: Option<string>, prefersDark: bool)
    requires Truthy(stored)
    ensures LoadStoredOnly(stored, dataTheme, false) ==
              (Some(ThemeAtLoad(stored, prefersDark)), CheckedAtLoad(stored, prefersDark))
  {
  }

  class SidebarTheme {
    var dataTheme: Option<string>
    var checked: bool
    var storage: map<string, string>

    constructor (dataTheme0: Option<string>, checked0: bool, storage0: map<string, string>)
      ensures dataTheme == dataTheme0 && checked == checked0 && storage == storage0
    {
      dataTheme := dataTheme0;
      checked := checked0;
      storage := storage0;
    }

    /** The load-time restore of the sidebar scripts. */
    method LoadStoredTheme()
      modifies this
      ensures (dataTheme, checked) == LoadStoredOnly(StoredTheme(old(storage)), old(dataTheme), old(checked))
      ensures storage == old(storage)
    {
      var currentTheme := if ThemeKey in storage then Some(storage[ThemeKey]) else None;
      if currentTheme.Some? && currentTheme.value != "" {
        dataTheme := currentTheme;
        if currentTheme.value == Dark {
          checked := true;
        }
      }
    }

    /** The user sets the checkbox to `value`; the `change` listener writes the attribute and the storage. */
    method ChangeCheckbox(value: bool)
      modifies this
      ensures checked == value
      ensures dataTheme == Some(ThemeOfCheckbox(value))
      ensures storage == old(storage)[ThemeKey := ThemeOfCheckbox(value)]
      ensures checked <==> dataTheme == Some(Dark)
    {
      checked := value;
      var theme := if checked then Dark else Light;
      dataTheme := Some(theme);
      storage := storage[ThemeKey := theme];
    }
  }
}
