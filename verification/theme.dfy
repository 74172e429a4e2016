/** `ThemeManager`: the light/dark colour scheme, remembered in the browser's local
    storage and mirrored on the page's `data-theme` attribute. */
module Theme {
  import opened Wrappers

  datatype Theme = Light | Dark

  /** The name the script stores and writes on the page. */
  function Name(t: Theme): (s: string)
    ensures s == "light" || s == "dark"
  {
    match t
    case Light => "light"
    case Dark => "dark"
  }

  /** The local-storage key the theme is saved under. */
  const StorageKey := "skincare-theme"

  /** The parts of the browser the manager touches: local storage, the answer to the
      `(prefers-color-scheme: dark)` media query, and the root element's `data-theme`. */
  datatype Browser = Browser(storage: map<string, string>, prefersDark: bool, dataTheme: Option<string>)

  datatype ThemeManager = ThemeManager(current: Theme)

  /** The manager and the browser after an operation. */
  datatype Page = Page(manager: ThemeManager, browser: Browser)

  /** `loadTheme`: a saved "dark" or "light" is used as it is; anything else saved, or
      nothing saved, defers to the system preference. */
  function LoadTheme(storage: map<string, string>, prefersDark: bool): (t: Theme)
    ensures StorageKey in storage && storage[StorageKey] == "dark" ==> t == Dark
    ensures StorageKey in storage && storage[StorageKey] == "light" ==> t == Light
    ensures StorageKey !in storage || storage[StorageKey] !in {"dark", "light"} ==>
              t == if prefersDark then Dark else Light
  {
    var saved := if StorageKey in storage then Some(storage[StorageKey]) else None;
    if saved == Some("dark") then Dark
    else if saved == Some("light") then Light
    else if prefersDark then Dark
    else Light
  }

  /** `applyTheme`: the page's attribute shows the current theme. */
  function ApplyTheme(m: ThemeManager, b: Browser): (r: Browser)
    ensures r.dataTheme == Some(Name(m.current))
    ensures r.storage == b.storage && r.prefersDark == b.prefersDark
  {
    b.(dataTheme := Some(Name(m.current)))
  }

  /** The constructor: the theme starts as light, is then loaded, then applied. Loading
      always assigns, so the starting value never shows. */
  function NewThemeManager(b: Browser): (p: Page)
    ensures p.manager.current == LoadTheme(b.storage, b.prefersDark)
    ensures p.browser.dataTheme == Some(Name(p.manager.current))
    ensures p.browser.storage == b.storage && p.browser.prefersDark == b.prefersDark
  {
    var initial := ThemeManager(Light);
    var loaded := initial.(current := LoadTheme(b.storage, b.prefersDark));
    Page(loaded, ApplyTheme(loaded, b))
  }

  /** `toggleTheme`: light becomes dark and dark becomes light; the new theme is saved
      under the storage key (no other key changes) and applied to the page. */
  function ToggleTheme(p: Page): (r: Page)
    ensures r.manager.current != p.manager.current
    ensures r.browser.storage == p.browser.storage[StorageKey := Name(r.manager.current)]
    ensures r.browser.dataTheme == Some(Name(r.manager.current))
    ensures r.browser.prefersDark == p.browser.prefersDark
  {
    var m := ThemeManager(if p.manager.current == Light then Dark else Light);
    var saved := p.browser.(storage := p.browser.storage[StorageKey := Name(m.current)]);
    Page(m, ApplyTheme(m, saved))
  }

  /** `getCurrentTheme`. */
  function GetCurrentTheme(m: ThemeManager): (s: string)
    ensures s == "light" || s == "dark"
    ensures s == "dark" <==> m.current == Dark
  {
    Name(m.current)
  }

  /** Toggling twice restores the theme and leaves the original theme saved. */
  lemma ToggleTwiceRestores(p: Page)
    ensures ToggleTheme(ToggleTheme(p)).manager == p.manager
    ensures ToggleTheme(ToggleTheme(p)).browser.storage[StorageKey] == Name(p.manager.current)
  {
  }

  /** Whatever was stored before, a toggled theme is what the next page load picks up,
      whatever the system preference is then. */
  lemma ToggledThemeSurvivesReload(p: Page, prefersDarkLater: bool)
    ensures var r := ToggleTheme(p);
            NewThemeManager(r.browser.(prefersDark := prefersDarkLater)).manager == r.manager
  {
    var r := ToggleTheme(p);
    assert r.browser.storage[StorageKey] == Name(r.manager.current);
    assert "light" != "dark";
  }

  /** A stored value that is not a theme name is ignored. */
  lemma UnknownSavedValueIgnored(b: Browser, saved: string)
    requires saved != "dark" && saved != "light"
    ensures NewThemeManager(b.(storage := b.storage[StorageKey := saved])).manager.current ==
              if b.prefersDark then Dark else Light
  {
  }
}
