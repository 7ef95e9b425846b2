/**
 * The theme provider, src/context/ThemeContext.tsx: the theme mode and colour scheme
 * (restored from storage, else "system" and "blue"), whether the page is dark, the
 * `dark` class on the document, and the toggle between light and dark.
 *
 * The browser's `prefers-color-scheme: dark` answer is a field the system-change
 * event updates; storage is a pair of optional saved values. Every effect is applied
 * as part of the operation that triggers it.
 */
module Theme {
  import opened Records
  import opened FinanceContext

  /** `applyTheme`: dark for "dark", the system's preference for "system", else light. */
  predicate IsDark(mode: ThemeMode, systemPrefersDark: bool) {
    match mode
    case Dark => true
    case System => systemPrefersDark
    case Light => false
  }

  /** `toggleTheme`: "light" becomes "dark", anything else becomes "light". */
  function Toggled(mode: ThemeMode): (r: ThemeMode)
    ensures r != System
  {
    if mode == Light then Dark else Light
  }

  /**
   * Toggling always lands on an explicit mode whose darkness no longer depends on
   * the system, it flips light and dark, and toggled twice from either it comes back.
   */
  lemma ToggleSpec(mode: ThemeMode, p: bool, q: bool)
    ensures IsDark(Toggled(mode), p) == IsDark(Toggled(mode), q)
    ensures IsDark(Toggled(mode), p) <==> mode == Light
    ensures mode != System ==> Toggled(Toggled(mode)) == mode
    ensures mode != System ==> IsDark(Toggled(mode), p) != IsDark(mode, p)
  {
  }

  /**
   * Toggling from "system" while the system is light goes to "light": the page
   * stays light, so the first press of the toggle changes nothing visible.
   */
  lemma ToggleFromLightSystem()
    ensures Toggled(System) == Light
    ensures IsDark(Toggled(System), false) == IsDark(System, false)
  {
  }

  /** The provider's state, the document's `dark` class and the two stored values. */
  class ThemeState {
    var themeMode: ThemeMode
    var colorScheme: ColorScheme
    var isDarkMode: bool
    var darkClass: bool
    var systemPrefersDark: bool
    var storedMode: Option<ThemeMode>
    var storedScheme: Option<ColorScheme>

    /**
     * After every effect has run: the flag and the class follow the mode and the
     * system, and storage holds the current choices.
     */
    predicate Valid()
      reads this
    {
      isDarkMode == IsDark(themeMode, systemPrefersDark) && darkClass == isDarkMode &&
      storedMode == Some(themeMode) && storedScheme == Some(colorScheme)
    }

    /** Mount: restore the choices or use "system" and "blue", then apply and save them. */
    constructor (savedMode: Option<ThemeMode>, savedScheme: Option<ColorScheme>, prefersDark: bool)
      ensures themeMode == LoadOr(savedMode, System) && colorScheme == LoadOr(savedScheme, Blue)
      ensures systemPrefersDark == prefersDark
      ensures Valid()
    {
      themeMode := LoadOr(savedMode, System);
      colorScheme := LoadOr(savedScheme, Blue);
      systemPrefersDark := prefersDark;
      isDarkMode := IsDark(LoadOr(savedMode, System), prefersDark);
      darkClass := IsDark(LoadOr(savedMode, System), prefersDark);
      storedMode := Some(LoadOr(savedMode, System));
      storedScheme := Some(LoadOr(savedScheme, Blue));
    }

    /** `applyTheme`: the flag and the `dark` class follow the mode and the system. */
    method ApplyTheme()
      modifies this
      ensures isDarkMode == IsDark(themeMode, systemPrefersDark) && darkClass == isDarkMode
      ensures themeMode == old(themeMode) && colorScheme == old(colorScheme)
      ensures systemPrefersDark == old(systemPrefersDark)
      ensures storedMode == old(storedMode) && storedScheme == old(storedScheme)
    {
      var isDark := false;
      if themeMode == Dark {
        isDark := true;
      } else if themeMode == System {
        isDark := systemPrefersDark;
      }
      isDarkMode := isDark;
      darkClass := isDark;
    }

    /** `setThemeMode`, then the effects: apply the theme and save the mode. */
    method SetThemeMode(mode: ThemeMode)
      requires Valid()
      modifies this
      ensures themeMode == mode && colorScheme == old(colorScheme)
      ensures systemPrefersDark == old(systemPrefersDark)
      ensures Valid()
    {
      themeMode := mode;
      ApplyTheme();
      storedMode := Some(mode);
    }

    /** `setColorScheme`, then saving it; nothing about darkness changes. */
    method SetColorScheme(scheme: ColorScheme)
      requires Valid()
      modifies this
      ensures colorScheme == scheme && themeMode == old(themeMode)
      ensures isDarkMode == old(isDarkMode) && darkClass == old(darkClass)
      ensures systemPrefersDark == old(systemPrefersDark)
      ensures Valid()
    {
      colorScheme := scheme;
      storedScheme := Some(scheme);
    }

    /** `toggleTheme`, then the effects. */
    method ToggleTheme()
      requires Valid()
      modifies this
      ensures themeMode == Toggled(old(themeMode)) && colorScheme == old(colorScheme)
      ensures isDarkMode <==> old(themeMode) == Light
      ensures systemPrefersDark == old(systemPrefersDark)
      ensures Valid()
    {
      SetThemeMode(Toggled(themeMode));
    }

    /** The `change` listener of the media query: the system's preference changed. */
    method OnSystemChange(prefersDark: bool)
      requires Valid()
      modifies this
      ensures systemPrefersDark == prefersDark
      ensures themeMode == old(themeMode) && colorScheme == old(colorScheme)
      ensures themeMode != System ==> isDarkMode == old(isDarkMode)
      ensures themeMode == System ==> isDarkMode == prefersDark
      ensures Valid()
    {
      systemPrefersDark := prefersDark;
      ApplyTheme();
    }
  }
}
