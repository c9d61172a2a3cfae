/**
 * The light/dark theme of assets/js/theme.js. The document is a class: the
 * `dark` class on the root element, its `data-theme` attribute, the saved
 * `theme` entry of local storage, the system preference, and the class lists
 * of the toggle button's sun and moon icons.
 */
module Theme {
  import opened Wrappers

  /** The decision of `initializeTheme`: an empty saved value counts as none. */
  predicate StartsDark(saved: Option<string>, systemPrefersDark: bool) {
    saved == Some("dark") || ((saved.None? || saved.value == []) && systemPrefersDark)
  }

  function ThemeName(dark: bool): string {
    if dark then "dark" else "light"
  }

  /** The sun icon's classes after `updateThemeToggleIcon`. */
  function SunAfter(sun: set<string>, dark: bool): set<string> {
    if dark then sun + {"hidden", "dark:hidden"} else sun - {"hidden", "dark:hidden"}
  }

  /** The moon icon's classes after `updateThemeToggleIcon`. */
  function MoonAfter(moon: set<string>, dark: bool): set<string> {
    if dark then (moon - {"hidden"}) + {"dark:block"} else (moon + {"hidden"}) - {"dark:block"}
  }

  /** Any saved value other than "dark" and the empty one forces light, whatever the system prefers. */
  lemma SavedValueDecides(saved: string, systemPrefersDark: bool)
    requires saved != []
    ensures StartsDark(Some(saved), systemPrefersDark) <==> saved == "dark"
  {
  }

  /** Without a saved value the system preference decides. */
  lemma SystemDecidesWhenUnsaved(systemPrefersDark: bool)
    ensures StartsDark(None, systemPrefersDark) == systemPrefersDark
    ensures StartsDark(Some(""), systemPrefersDark) == systemPrefersDark
  {
  }

  /** What `toggleTheme` persists brings the next page load back to the same state. */
  lemma PersistedThemeRoundTrip(dark: bool, systemPrefersDark: bool)
    ensures StartsDark(Some(ThemeName(dark)), systemPrefersDark) == dark
  {
  }

  /** Exactly one icon is visible: the moon in dark mode, the sun in light mode. */
  lemma IconsFollowTheme(sun: set<string>, moon: set<string>, dark: bool)
    ensures ("hidden" in SunAfter(sun, dark)) == dark
    ensures ("hidden" in MoonAfter(moon, dark)) == !dark
    ensures ("dark:block" in MoonAfter(moon, dark)) == dark
  {
  }

  class ThemeDocument {
    var dark: bool
    var dataTheme: Option<string>
    var saved: Option<string>
    const systemPrefersDark: bool
    /** Whether the `#theme-toggle` button and both of its icons exist. */
    const iconsPresent: bool
    var sunClasses: set<string>
    var moonClasses: set<string>

    /** `data-theme` agrees with the `dark` class. */
    predicate Consistent()
      reads this
    {
      dataTheme == Some(ThemeName(dark))
    }

    constructor (saved: Option<string>, systemPrefersDark: bool, iconsPresent: bool, sun: set<string>, moon: set<string>)
      ensures this.saved == saved && this.systemPrefersDark == systemPrefersDark && this.iconsPresent == iconsPresent
      ensures !dark && dataTheme.None? && sunClasses == sun && moonClasses == moon
    {
      this.saved := saved;
      this.systemPrefersDark := systemPrefersDark;
      this.iconsPresent := iconsPresent;
      dark := false;
      dataTheme := None;
      sunClasses := sun;
      moonClasses := moon;
    }

    /** `initializeTheme()` */
    method InitializeTheme()
      modifies this`dark, this`dataTheme
      ensures dark == StartsDark(saved, systemPrefersDark)
      ensures Consistent()
    {
      if saved == Some("dark") || ((saved.None? || saved.value == []) && systemPrefersDark) {
        dark := true;
        dataTheme := Some("dark");
      } else {
        dark := false;
        dataTheme := Some("light");
      }
    }

    /** `updateThemeToggleIcon()`: nothing changes unless the button and both icons exist. */
    method UpdateThemeToggleIcon()
      modifies this`sunClasses, this`moonClasses
      ensures sunClasses == if iconsPresent then SunAfter(old(sunClasses), dark) else old(sunClasses)
      ensures moonClasses == if iconsPresent then MoonAfter(old(moonClasses), dark) else old(moonClasses)
    {
      if iconsPresent {
        if dark {
          sunClasses := sunClasses + {"hidden", "dark:hidden"};
          moonClasses := moonClasses - {"hidden"};
          moonClasses := moonClasses + {"dark:block"};
        } else {
          sunClasses := sunClasses - {"hidden", "dark:hidden"};
          moonClasses := moonClasses + {"hidden"};
          moonClasses := moonClasses - {"dark:block"};
        }
      }
    }

    /** `toggleTheme()`: flips the theme, persists it and redraws the icons. */
    method ToggleTheme()
      modifies this`dark, this`dataTheme, this`saved, this`sunClasses, this`moonClasses
      ensures dark == !old(dark)
      ensures Consistent()
      ensures saved == Some(ThemeName(dark))
      ensures sunClasses == if iconsPresent then SunAfter(old(sunClasses), dark) else old(sunClasses)
      ensures moonClasses == if iconsPresent then MoonAfter(old(moonClasses), dark) else old(moonClasses)
    {
      var isDark := dark;
      if isDark {
        dark := false;
        dataTheme := Some("light");
        saved := Some("light");
      } else {
        dark := true;
        dataTheme := Some("dark");
        saved := Some("dark");
      }
      UpdateThemeToggleIcon();
    }
  }
}
