/** The settings overlay's theme options, wired to the shell's theme toggle. */
module SettingsModal {
  import opened JsCore
  import opened App

  /** Which option shows the check mark. */
  datatype ThemeOptions = ThemeOptions(lightChecked: bool, darkChecked: bool)

  /** The rendered options; a closed overlay renders nothing. */
  function Render(isOpen: bool, isDarkMode: bool): (r: Option<ThemeOptions>)
    ensures !isOpen <==> r.None?
    ensures r.Some? ==> r.value.lightChecked == !isDarkMode && r.value.darkChecked == isDarkMode
  {
    if !isOpen then None else Some(ThemeOptions(!isDarkMode, isDarkMode))
  }

  /** Exactly one option is checked: the one matching the theme. */
  lemma ExactlyOneChecked(isDarkMode: bool)
    ensures var o := Render(true, isDarkMode).value;
      (o.lightChecked != o.darkChecked) && (o.darkChecked <==> isDarkMode)
  {
  }

  /** `isDarkMode` as the shell passes it. */
  predicate IsDarkMode(t: Theme) {
    t == Dark
  }

  /** Clicking "Claro": `isDarkMode && toggleTheme()`. */
  function ChooseLight(t: Theme): (r: Theme)
  {
    if IsDarkMode(t) then ToggleTheme(t) else t
  }

  /** Clicking "Escuro": `!isDarkMode && toggleTheme()`. */
  function ChooseDark(t: Theme): (r: Theme)
  {
    if !IsDarkMode(t) then ToggleTheme(t) else t
  }

  /**
   * Each option leads to its own theme from either theme, changes nothing
   * when already active, and choosing it twice is choosing it once.
   */
  lemma ChooseSpec(t: Theme)
    ensures ChooseLight(t) == Light && ChooseDark(t) == Dark
    ensures t == Light ==> ChooseLight(t) == t
    ensures t == Dark ==> ChooseDark(t) == t
    ensures ChooseLight(ChooseLight(t)) == ChooseLight(t)
    ensures ChooseDark(ChooseDark(t)) == ChooseDark(t)
  {
  }
}
