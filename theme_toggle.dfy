/**
 * The `ThemeToggle` component: a `theme` string in component state,
 * initialised from local storage or the system preference, flipped by
 * the button, and an effect that mirrors it onto the root's `dark` class
 * and back into local storage.
 */
module ThemeToggle {
  import opened Wrappers

  /**
   * The lazy initialiser of `useState`: without a `window` (rendering off
   * the browser) `'light'`; otherwise a non-empty stored string verbatim,
   * else `'dark'` or `'light'` by the system preference.
   */
  function InitialTheme(hasWindow: bool, stored: Option<string>, prefersDark: bool): string {
    if !hasWindow then "light"
    else if stored.Some? && stored.value != "" then stored.value
    else if prefersDark then "dark"
    else "light"
  }

  /** The updater `toggleTheme` passes to `setTheme`. */
  function NextTheme(prev: string): string {
    if prev == "dark" then "light" else "dark"
  }

  /** The initial theme is never empty, and is one of the two names unless an unknown string was stored. */
  lemma InitialThemeShape(hasWindow: bool, stored: Option<string>, prefersDark: bool)
    ensures InitialTheme(hasWindow, stored, prefersDark) != ""
    ensures InitialTheme(hasWindow, stored, prefersDark) in {"dark", "light"}
      || (hasWindow && stored == Some(InitialTheme(hasWindow, stored, prefersDark)))
  {
  }

  /** Off the browser the initial theme is light, whatever storage and preference would say. */
  lemma NoWindowMeansLight(stored: Option<string>, prefersDark: bool)
    ensures InitialTheme(false, stored, prefersDark) == "light"
  {
  }

  /** The theme the effect stored is the theme the next mount starts with. */
  lemma StoredThemeSurvivesReload(theme: string, prefersDark: bool)
    requires theme != ""
    ensures InitialTheme(true, Some(theme), prefersDark) == theme
  {
  }

  /** Toggling always changes the theme, and lands on dark exactly from a non-dark one. */
  lemma NextThemeFlips(prev: string)
    ensures NextTheme(prev) != prev
    ensures NextTheme(prev) == "dark" <==> prev != "dark"
    ensures NextTheme(prev) in {"dark", "light"}
  {
  }

  /** Two toggles are the identity exactly on the two theme names. */
  lemma ToggleTwiceIdentity(theme: string)
    ensures NextTheme(NextTheme(theme)) == theme <==> theme == "dark" || theme == "light"
  {
  }

  /** The component state with the two places the effect writes to. */
  class Component {
    var theme: string
    var rootDark: bool
    var stored: Option<string>

    /** The effect has run for the current theme. */
    ghost predicate Synced()
      reads this
    {
      rootDark == (theme == "dark") && stored == Some(theme)
    }

    /** First render: only the state initialiser runs; the page's root class and storage are as found. */
    constructor (hasWindow: bool, stored: Option<string>, prefersDark: bool, rootDark: bool)
      ensures theme == InitialTheme(hasWindow, stored, prefersDark)
      ensures this.stored == stored && this.rootDark == rootDark
    {
      theme := InitialTheme(hasWindow, stored, prefersDark);
      this.stored := stored;
      this.rootDark := rootDark;
    }

    /** The effect on `[theme]`: add or remove the root's `dark` class, then store the theme. */
    method SyncEffect()
      modifies this`rootDark, this`stored
      ensures Synced()
    {
      if theme == "dark" {
        rootDark := true;
      } else {
        rootDark := false;
      }
      stored := Some(theme);
    }

    /** A click: `toggleTheme`, then the effect, which re-runs because the theme changed. */
    method Click()
      modifies this
      ensures theme == NextTheme(old(theme)) && Synced()
    {
      theme := NextTheme(theme);
      SyncEffect();
    }
  }
}
