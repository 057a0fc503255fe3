/** The colour theme: chosen at start-up from the saved value or the system
    preference, and flipped by the toggle button. `setTheme` writes the chosen
    theme both to the page (the `data-theme` attribute) and to local storage. */
module Theme {
  import opened Wrappers

  const Dark := "dark"
  const Light := "light"

  /** The two values the page ever sets. */
  predicate IsTheme(t: string)
  {
    t == Dark || t == Light
  }

  /** `initTheme`: a saved value is used only when it is exactly "dark" or "light";
      otherwise the theme is dark exactly when the user prefers a dark scheme. */
  function InitialTheme(saved: Option<string>, prefersDark: bool): (theme: string)
    ensures IsTheme(theme)
    ensures saved.Some? && IsTheme(saved.value) ==> theme == saved.value
    ensures !(saved.Some? && IsTheme(saved.value)) ==> (theme == Dark <==> prefersDark)
  {
    if saved == Some(Dark) || saved == Some(Light) then saved.value
    else if prefersDark then Dark
    else Light
  }

  /** The toggle: "dark" becomes "light", anything else (including no attribute) becomes "dark". */
  function Toggled(current: Option<string>): (theme: string)
    ensures IsTheme(theme)
    ensures theme == Light <==> current == Some(Dark)
  {
    if current == Some(Dark) then Light else Dark
  }

  /** What `setTheme` writes: the page attribute and the saved value. */
  datatype ThemeState = ThemeState(attribute: Option<string>, saved: Option<string>)

  function SetTheme(theme: string): (r: ThemeState)
    ensures r.attribute == Some(theme) && r.saved == Some(theme)
  {
    ThemeState(Some(theme), Some(theme))
  }

  /** Start-up: the theme decided from the saved value is applied and saved. */
  function AfterInit(state: ThemeState, prefersDark: bool): (r: ThemeState)
    ensures r.attribute == r.saved && r.attribute.Some? && IsTheme(r.attribute.value)
    ensures r.attribute == Some(InitialTheme(state.saved, prefersDark))
  {
    SetTheme(InitialTheme(state.saved, prefersDark))
  }

  /** A click on the toggle. */
  function AfterToggle(state: ThemeState): (r: ThemeState)
    ensures r.attribute == r.saved && r.attribute.Some? && IsTheme(r.attribute.value)
    ensures r.attribute != state.attribute
    ensures r.attribute == Some(Toggled(state.attribute))
  {
    SetTheme(Toggled(state.attribute))
  }

  /** Toggling twice from a theme the page set returns to that theme. */
  lemma ToggleTwice(t: string)
    requires IsTheme(t)
    ensures Toggled(Some(Toggled(Some(t)))) == t
  {
  }

  /** The theme on screen is the one a reload would restore, whatever the system
      preference is then: start-up followed by any number of toggles keeps the
      attribute and the saved value equal. */
  lemma ReloadRestoresTheme(state: ThemeState, prefersDark: bool, toggles: nat, prefersDarkLater: bool)
    ensures var s := Toggles(AfterInit(state, prefersDark), toggles);
      AfterInit(s, prefersDarkLater) == s
  {
  }

  /** `n` clicks on the toggle. */
  function Toggles(state: ThemeState, n: nat): ThemeState
  {
    if n == 0 then state else AfterToggle(Toggles(state, n - 1))
  }
}
