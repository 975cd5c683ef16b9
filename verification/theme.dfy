/** The colour theme control of the web front end: the theme is light or
    dark (the body's `theme-dark` class), a toggle button shows the theme
    the next click switches to, and the choice made by a click is kept in
    local storage, where it takes precedence over the operating system's
    preference from then on. Local storage is the map `storage`; the
    operating system's `prefers-color-scheme: dark` query is a parameter. */
module Theme {
  import opened Base

  const StorageKey: string := "rss_studio_theme"
  const DarkTheme: string := "dark"
  const LightTheme: string := "light"

  /** `localStorage.getItem(key)`: the stored string, or null. */
  function Saved(storage: map<string, string>): (r: Option<string>)
    ensures r.Some? <==> StorageKey in storage
    ensures r.Some? ==> r.value == storage[StorageKey]
  {
    if StorageKey in storage then Some(storage[StorageKey]) else None
  }

  /** The theme `initThemeControls` starts with: a non-empty saved theme,
      else the one the operating system prefers. */
  function InitialTheme(saved: Option<string>, osDark: bool): (r: string)
    ensures r != ""
    ensures Truthy(saved) ==> r == saved.value
    ensures !Truthy(saved) ==> (r == DarkTheme <==> osDark) && (r == DarkTheme || r == LightTheme)
  {
    if Truthy(saved) then saved.value else if osDark then DarkTheme else LightTheme
  }

  /** The theme a click switches to from the current one. */
  function NextTheme(dark: bool): (r: string)
    ensures r == DarkTheme <==> !dark
    ensures r == DarkTheme || r == LightTheme
  {
    if dark then LightTheme else DarkTheme
  }

  /** The button's text names the theme a click switches to. */
  function ButtonText(dark: bool): string {
    if dark then "亮色模式" else "暗黑模式"
  }

  function ButtonLabel(dark: bool): string {
    if dark then "切换至亮色模式" else "切换至暗黑模式"
  }

  class ThemeControls {
    /** Whether the page has the `#toggle-theme` button. */
    const hasButton: bool
    /** Whether the body carries the `theme-dark` class. */
    var dark: bool
    var buttonText: string
    var ariaLabel: string
    var ariaPressed: string
    var storage: map<string, string>

    /** The button describes the theme shown (when there is a button). */
    predicate ButtonShowsTheme()
      reads this
    {
      hasButton ==> buttonText == ButtonText(dark) && ariaLabel == ButtonLabel(dark) && ariaPressed == BoolText(dark)
    }

    /** A non-empty saved theme is the theme shown. */
    predicate FollowsSaved()
      reads this
    {
      Truthy(Saved(storage)) ==> (dark <==> Saved(storage).value == DarkTheme)
    }

    constructor (hasButton: bool, dark: bool, storage: map<string, string>)
      ensures this.hasButton == hasButton && this.dark == dark && this.storage == storage
    {
      this.hasButton := hasButton;
      this.dark := dark;
      this.storage := storage;
      buttonText, ariaLabel, ariaPressed := "", "", "";
    }

    /** `applyTheme`: the theme is dark exactly when the name is "dark"; the
        button, when there is one, is relabelled accordingly. */
    method ApplyTheme(theme: string)
      modifies this`dark, this`buttonText, this`ariaLabel, this`ariaPressed
      ensures dark <==> theme == DarkTheme
      ensures ButtonShowsTheme()
      ensures !hasButton ==> buttonText == old(buttonText) && ariaLabel == old(ariaLabel) && ariaPressed == old(ariaPressed)
    {
      dark := theme == DarkTheme;
      if hasButton {
        buttonText := ButtonText(dark);
        ariaLabel := ButtonLabel(dark);
        ariaPressed := BoolText(dark);
      }
    }

    /** `initThemeControls`: without a button nothing happens; otherwise
        the initial theme is applied, and a non-empty saved theme is the one
        shown. Any other saved string shows the light theme. */
    method Init(osDark: bool)
      modifies this`dark, this`buttonText, this`ariaLabel, this`ariaPressed
      ensures !hasButton ==> dark == old(dark) && buttonText == old(buttonText) &&
                             ariaLabel == old(ariaLabel) && ariaPressed == old(ariaPressed)
      ensures hasButton ==> (dark <==> InitialTheme(Saved(storage), osDark) == DarkTheme)
      ensures hasButton ==> ButtonShowsTheme() && FollowsSaved()
    {
      if !hasButton {
        return;
      }
      ApplyTheme(InitialTheme(Saved(storage), osDark));
    }

    /** A click on the button (registered only when there is one): the
        other theme is applied and saved. */
    method Click()
      requires hasButton
      modifies this`dark, this`buttonText, this`ariaLabel, this`ariaPressed, this`storage
      ensures dark == !old(dark)
      ensures storage == old(storage)[StorageKey := NextTheme(old(dark))]
      ensures ButtonShowsTheme() && FollowsSaved()
    {
      var next := NextTheme(dark);
      ApplyTheme(next);
      storage := storage[StorageKey := next];
    }

    /** A change of the operating system's preference: ignored once a
        non-empty theme is saved, applied otherwise. */
    method OsChange(matches: bool)
      requires hasButton
      modifies this`dark, this`buttonText, this`ariaLabel, this`ariaPressed
      ensures Truthy(Saved(storage)) ==> dark == old(dark) && buttonText == old(buttonText) &&
                                         ariaLabel == old(ariaLabel) && ariaPressed == old(ariaPressed)
      ensures !Truthy(Saved(storage)) ==> (dark <==> matches) && ButtonShowsTheme()
      ensures old(FollowsSaved()) ==> FollowsSaved()
    {
      if Truthy(Saved(storage)) {
        return;
      }
      ApplyTheme(if matches then DarkTheme else LightTheme);
    }
  }
}
