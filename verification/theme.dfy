/** Theme resolution for the injected client script: the configured default
    theme (`defaultConfig.theme`) and the theme picked from the page's
    `data-theme` attribute when automatic theming is on. */
module Theme {
  import opened Common

  /** The integration's options as far as themes are concerned. `None` is an
      option left out by the user. */
  datatype Options = Options(
    theme: Option<string>,
    autoTheme: Option<bool>,
    mermaidConfigTheme: Option<string>)

  const DefaultThemeName := "default"
  const DarkThemeName := "dark"

  /** `themeMap`: the two recognised `data-theme` values. */
  const ThemeMap: map<string, string> := map["light" := DefaultThemeName, "dark" := DarkThemeName]

  /** `autoTheme` defaults to true when left out. */
  function AutoTheme(o: Options): bool
  {
    o.autoTheme.GetOr(true)
  }

  /** `defaultConfig.theme`: `{ theme, ...mermaidConfig }` lets a theme in
      `mermaidConfig` override the `theme` option, which defaults to 'default'. */
  function DefaultTheme(o: Options): (r: string)
    ensures o.mermaidConfigTheme.Some? ==> r == o.mermaidConfigTheme.value
    ensures o.mermaidConfigTheme.None? && o.theme.Some? ==> r == o.theme.value
    ensures o.mermaidConfigTheme.None? && o.theme.None? ==> r == DefaultThemeName
  {
    if o.mermaidConfigTheme.Some? then o.mermaidConfigTheme.value
    else o.theme.GetOr(DefaultThemeName)
  }

  /** `currentTheme` in `initMermaid`, a total function: with auto theming,
      'light' and 'dark' map through `themeMap` (the lookup result is used
      when non-empty, JavaScript `||`) and anything else, absence included,
      falls back to the default theme; without auto theming the attribute is
      ignored. The result is always a mapped name or the default. */
  function ResolveTheme(o: Options, dataTheme: Option<string>): (r: string)
    ensures AutoTheme(o) && dataTheme == Some("light") ==> r == DefaultThemeName
    ensures AutoTheme(o) && dataTheme == Some("dark") ==> r == DarkThemeName
    ensures AutoTheme(o) && dataTheme != Some("light") && dataTheme != Some("dark") ==> r == DefaultTheme(o)
    ensures !AutoTheme(o) ==> r == DefaultTheme(o)
    ensures r in {DefaultThemeName, DarkThemeName, DefaultTheme(o)}
  {
    if AutoTheme(o) then
      var mapped := if dataTheme.Some? && dataTheme.value in ThemeMap then ThemeMap[dataTheme.value] else "";
      if mapped != "" then mapped else DefaultTheme(o)
    else DefaultTheme(o)
  }

  /** An unrecognised value behaves exactly like an absent attribute. */
  lemma UnrecognisedIsAbsent(o: Options, value: string)
    requires value != "light" && value != "dark"
    ensures ResolveTheme(o, Some(value)) == ResolveTheme(o, None)
  {
  }

  /** Examples: 'light', 'dark', an unrecognised value and an absent
      attribute, with `mermaidConfig.theme` as the fallback. */
  lemma ResolutionExamples()
    ensures var o := Options(Some("neutral"), None, Some("forest"));
      && ResolveTheme(o, Some("light")) == "default"
      && ResolveTheme(o, Some("dark")) == "dark"
      && ResolveTheme(o, Some("high-contrast")) == "forest"
      && ResolveTheme(o, None) == "forest"
    ensures ResolveTheme(Options(None, Some(false), None), Some("dark")) == "default"
  {
  }
}
