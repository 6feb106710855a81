/**
 * The theme toggle of app.js (`UI.initializeThemeToggle`): the `dark` class
 * on the document root, the `theme` entry of local storage, and the click
 * handler that flips the class, stores the matching string and re-themes
 * every registered chart.
 */
module SiteTheme {
  import opened Wrappers
  import opened ChartConfig
  import opened ChartTheme

  /**
   * The start-up test: dark when the stored value is `'dark'`, or when
   * nothing usable is stored (no entry, or the empty string) and the
   * system prefers dark. A missing `matchMedia` reads as "prefers light".
   */
  function InitiallyDark(stored: Option<string>, prefersDark: bool): bool {
    stored == Some("dark") || ((stored.None? || stored == Some("")) && prefersDark)
  }

  /** The string the click handler stores for a theme. */
  function StoredFor(dark: bool): string {
    if dark then "dark" else "light"
  }

  /** A usable stored value decides on its own: only `'dark'` gives dark. */
  lemma StoredValueWins(stored: string, prefersDark: bool)
    requires stored != ""
    ensures InitiallyDark(Some(stored), prefersDark) <==> stored == "dark"
  {
  }

  /** Without a usable stored value, the system preference decides. */
  lemma SystemPreferenceFallback(stored: Option<string>, prefersDark: bool)
    requires stored.None? || stored == Some("")
    ensures InitiallyDark(stored, prefersDark) == prefersDark
  {
  }

  /** What a click stores is read back as the same theme on the next visit, whatever the system prefers. */
  lemma StoredThemeSurvivesReload(dark: bool, prefersDark: bool)
    ensures InitiallyDark(Some(StoredFor(dark)), prefersDark) == dark
  {
  }

  /** The root flag and the stored entry. */
  datatype ThemeState = ThemeState(dark: bool, stored: Option<string>)

  /** The click handler's effect on the root flag and storage. */
  function Toggle(s: ThemeState): (r: ThemeState)
    ensures r.dark == !s.dark
    ensures r.stored.Some? && InitiallyDark(r.stored, false) == r.dark && InitiallyDark(r.stored, true) == r.dark
  {
    ThemeState(!s.dark, Some(StoredFor(!s.dark)))
  }

  /**
   * Two clicks restore the flag and leave the matching string stored; the
   * whole state comes back exactly when the stored string already matched.
   */
  lemma TwoTogglesRestore(s: ThemeState)
    ensures Toggle(Toggle(s)).dark == s.dark
    ensures Toggle(Toggle(s)).stored == Some(StoredFor(s.dark))
    ensures Toggle(Toggle(s)) == s <==> s.stored == Some(StoredFor(s.dark))
  {
  }

  /** The toggle button's wiring to the document root, local storage and the chart registry. */
  class ThemeToggle {
    var rootDark: bool
    var stored: Option<string>
    var listening: bool
    const charts: Registry

    /** The page before `initializeThemeToggle` runs. */
    constructor (rootDark: bool, stored: Option<string>, charts: Registry)
      ensures this.rootDark == rootDark && this.stored == stored && this.charts == charts
      ensures !listening
    {
      this.rootDark := rootDark;
      this.stored := stored;
      this.charts := charts;
      listening := false;
    }

    /**
     * `initializeThemeToggle()`: without the button nothing happens;
     * otherwise the class is added when the start-up test says dark (it is
     * never removed here) and the click listener is attached.
     */
    method Initialize(buttonFound: bool, prefersDark: bool)
      modifies this`rootDark, this`listening
      ensures !buttonFound ==> rootDark == old(rootDark) && listening == old(listening)
      ensures buttonFound ==> rootDark == (old(rootDark) || InitiallyDark(stored, prefersDark)) && listening
    {
      if !buttonFound {
        return;
      }
      if InitiallyDark(stored, prefersDark) {
        rootDark := true;
      }
      listening := true;
    }

    /** A click on the button: toggle the class, store the matching string, re-theme all charts. */
    method Click()
      requires charts.Valid()
      modifies this`rootDark, this`stored, charts`defaults, charts.instances
      ensures charts.Valid() && charts.instances == old(charts.instances)
      ensures !listening ==> rootDark == old(rootDark) && stored == old(stored)
      ensures !listening ==> forall i :: 0 <= i < |charts.instances| ==>
        charts.instances[i].options == old(charts.instances[i].options)
      ensures listening ==> ThemeState(rootDark, stored) == Toggle(ThemeState(old(rootDark), old(stored)))
      ensures listening ==> charts.defaults == DefaultsFor(rootDark)
      ensures !listening ==> charts.defaults == old(charts.defaults)
      ensures forall i :: 0 <= i < |charts.instances| ==>
        && charts.instances[i].redraws == old(charts.instances[i].redraws) + (if listening then 1 else 0)
        && charts.instances[i].data == old(charts.instances[i].data)
        && charts.instances[i].destroyed == old(charts.instances[i].destroyed)
      ensures listening ==> forall i :: 0 <= i < |charts.instances| ==>
        charts.instances[i].options == RethemeOptions(old(charts.instances[i].options), ColorsFor(rootDark))
    {
      if !listening {
        return;
      }
      rootDark := !rootDark;
      stored := Some(if rootDark then "dark" else "light");
      charts.UpdateAllTheme(rootDark);
    }
  }

  /**
   * Two clicks leave every chart as one re-theme with the original palette
   * would: the colours come back whenever they already matched the theme.
   */
  lemma TwoClicksRestoreChartColours(o: Options, dark: bool)
    ensures RethemeOptions(RethemeOptions(o, ColorsFor(!dark)), ColorsFor(dark)) == RethemeOptions(o, ColorsFor(dark))
    ensures RethemeOptions(o, ColorsFor(dark)) == o ==>
      RethemeOptions(RethemeOptions(o, ColorsFor(!dark)), ColorsFor(dark)) == o
  {
    RethemeLastWins(o, ColorsFor(!dark), ColorsFor(dark));
  }
}
