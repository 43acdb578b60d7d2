/**
 * The colour theme: its initial value (the stored preference, else light)
 * and the rule of the toggle button.
 */
module Theme {
  import opened Wrappers

  const Light := "light"
  const Dark := "dark"

  /** `localStorage.getItem("theme") || "light"`: a missing or empty stored value means light. */
  function InitialTheme(stored: Option<string>): (theme: string)
    ensures stored.Some? && stored.value != "" ==> theme == stored.value
    ensures stored.None? || stored.value == "" ==> theme == Light
    ensures theme != ""
  {
    if stored.Some? && stored.value != "" then stored.value else Light
  }

  /** The toggle's `next`: light goes to dark, and anything else goes to light. */
  function NextTheme(theme: string): (next: string)
    ensures next == Light || next == Dark
    ensures next == Dark <==> theme == Light
  {
    if theme == Light then Dark else Light
  }

  /** Toggling twice from light or dark returns to the start. */
  lemma ToggleTwice(theme: string)
    requires theme == Light || theme == Dark
    ensures NextTheme(NextTheme(theme)) == theme
  {
  }

  /** A stored value other than light or dark is left after one toggle and never comes back. */
  lemma ToggleSettles(theme: string)
    ensures NextTheme(NextTheme(NextTheme(theme))) == NextTheme(theme)
    ensures theme != Light && theme != Dark ==> NextTheme(NextTheme(theme)) != theme
  {
  }

  /** The theme after `n` presses of the toggle, starting from what was stored. */
  function ThemeAfter(stored: Option<string>, n: nat): (theme: string)
    ensures theme != ""
    ensures n > 0 ==> theme == Light || theme == Dark
    decreases n
  {
    if n == 0 then InitialTheme(stored) else NextTheme(ThemeAfter(stored, n - 1))
  }

  /**
   * Taking as given that every theme the page holds is written back to storage
   * (the effect's `localStorage.setItem`), reading it on the next visit
   * restores it: the stored preference survives a reload.
   */
  lemma {:induction false} ReloadRestoresTheme(stored: Option<string>, n: nat)
    ensures InitialTheme(Some(ThemeAfter(stored, n))) == ThemeAfter(stored, n)
  {
  }

  /** Once toggled, the theme alternates: two more presses return to it. */
  lemma {:induction false} ThemeAlternates(stored: Option<string>, n: nat)
    requires n > 0
    ensures ThemeAfter(stored, n + 2) == ThemeAfter(stored, n)
    ensures ThemeAfter(stored, n + 1) != ThemeAfter(stored, n)
  {
    ToggleTwice(ThemeAfter(stored, n));
  }

  /** With nothing stored the page starts light, and the first toggle makes it dark. */
  lemma FreshVisit()
    ensures InitialTheme(None) == Light
    ensures InitialTheme(Some("")) == Light
    ensures NextTheme(InitialTheme(None)) == Dark
  {
  }
}
